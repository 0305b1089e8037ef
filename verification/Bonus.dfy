// The staff bonus register and the handlers that write it.
module Bonus {
  import opened Common

  /** Identifiers are the 128-bit numbers that lower-case UUIDs write out, so their text order is the number order. */
  type Id = nat
  type User = nat
  type Branch = nat

  datatype Origin = Requested | Awarded
  datatype Verdict = Approve(note: Option<string>) | Reject(reason: string)
  datatype Status = Pending | Approved | Rejected | Settled

  datatype Head = Head(owner: User, branch: Branch, origin: Origin, amount: nat, reason: string, createdBy: User)
  datatype Decision = Decision(verdict: Verdict, actor: User)
  datatype Settlement = Settlement(batch: Id, actor: User, note: string)

  /** What the caller asked for, kept beside the operation's key. */
  datatype Payload =
    | Request(owner: User, amount: nat, reason: string)
    | Award(actor: User, owner: User, amount: nat, reason: string)
    | Decide(actor: User, id: Id, verdict: Verdict)
    | Settle(actor: User, items: seq<Id>, note: string)

  datatype Source = OfRequest | OfAward | OfDecide | OfSettle
  datatype Key = Key(source: Source, event: string)
  datatype Message = Message(payload: Payload, ref: Id)

  datatype Ledger = Ledger(heads: map<Id, Head>, decisions: map<Id, Decision>, settlements: map<Id, Settlement>,
                           inbox: map<Key, Message>)

  /** What the permission tables say of the actor while the operation runs. */
  datatype Access = Access(manages: bool, branches: set<Branch>, staff: set<User>)

  datatype Error =
    | Forbidden | NotFound | Own | NotReviewable | Stale | BeneficiaryNotFound | IdTaken | BatchTaken | KeyReused
    | BadSelection

  const MAX_ITEMS := 500

  // ---------------------------------------------------------------- status, from the three tables

  function StatusOf(l: Ledger, id: Id): Status
    requires id in l.heads
  {
    if id in l.settlements then Settled
    else if l.heads[id].origin.Awarded? || (id in l.decisions && l.decisions[id].verdict.Approve?) then Approved
    else if id in l.decisions then Rejected
    else Pending
  }

  // ---------------------------------------------------------------- what each operation checks and writes

  function ItemError(l: Ledger, actor: User, access: Access, id: Id): Option<Error>
  {
    if id !in l.heads || l.heads[id].branch !in access.branches then Some(NotFound)
    else if l.heads[id].owner == actor then Some(Own)
    else if StatusOf(l, id) != Approved then Some(Stale)
    else None
  }

  /** The first item, in locking order, that cannot be settled. */
  function FirstError(l: Ledger, actor: User, access: Access, items: seq<Id>): Option<Error>
  {
    if items == [] then None
    else
      var e := ItemError(l, actor, access, items[0]);
      if e.Some? then e else FirstError(l, actor, access, items[1..])
  }

  predicate BatchUnused(l: Ledger, batch: Id)
  {
    forall id :: id in l.settlements ==> l.settlements[id].batch != batch
  }

  function DecideError(l: Ledger, actor: User, access: Access, id: Id): Option<Error>
  {
    if id !in l.heads || l.heads[id].branch !in access.branches then Some(NotFound)
    else if l.heads[id].owner == actor then Some(Own)
    else if l.heads[id].origin.Awarded? then Some(NotReviewable)
    else if StatusOf(l, id) != Pending then Some(Stale)
    else None
  }

  /** Why the operation is refused in the state l; `ref` is the new bonus or batch identifier. */
  function Refused(l: Ledger, p: Payload, ref: Id, access: Access): Option<Error>
  {
    match p
    case Request(_, _, _) => if ref in l.heads then Some(IdTaken) else None
    case Award(actor, owner, _, _) =>
      if !access.manages then Some(Forbidden)
      else if owner == actor then Some(Own)
      else if owner !in access.staff then Some(BeneficiaryNotFound)
      else if ref in l.heads then Some(IdTaken)
      else None
    case Decide(actor, id, _) => if !access.manages then Some(Forbidden) else DecideError(l, actor, access, id)
    case Settle(actor, items, _) =>
      if !access.manages then Some(Forbidden)
      else
        var e := FirstError(l, actor, access, items);
        if e.Some? then e else if !BatchUnused(l, ref) then Some(BatchTaken) else None
  }

  /** What the operation leaves behind, its message included; `home` is the beneficiary's branch. */
  function Written(l: Ledger, key: Key, p: Payload, ref: Id, home: Branch): Ledger
  {
    var m := l.(inbox := l.inbox[key := Message(p, ref)]);
    match p
    case Request(owner, amount, reason) =>
      m.(heads := l.heads[ref := Head(owner, home, Requested, amount, reason, owner)])
    case Award(actor, owner, amount, reason) =>
      m.(heads := l.heads[ref := Head(owner, home, Awarded, amount, reason, actor)])
    case Decide(actor, id, verdict) => m.(decisions := l.decisions[id := Decision(verdict, actor)])
    case Settle(actor, items, note) =>
      m.(settlements := l.settlements + (map id | id in items :: Settlement(ref, actor, note)))
  }

  // ---------------------------------------------------------------- the report on a batch

  function Members(l: Ledger, batch: Id): set<Id>
  {
    set id | id in l.settlements && l.settlements[id].batch == batch
  }

  function AmountOf(l: Ledger, id: Id): nat
  {
    if id in l.heads then l.heads[id].amount else 0
  }

  function Total(l: Ledger, items: seq<Id>): nat
  {
    if items == [] then 0 else AmountOf(l, items[0]) + Total(l, items[1..])
  }

  predicate Increasing(items: seq<Id>)
  {
    forall i, j :: 0 <= i < j < |items| ==> items[i] < items[j]
  }

  datatype Report = Report(count: nat, total: nat, items: seq<Id>)

  predicate IsLeast(s: set<Id>, m: Id) { m in s && forall k :: k in s ==> m <= k }

  lemma {:induction false} HasLeast(s: set<Id>) returns (m: Id)
    requires s != {}
    ensures IsLeast(s, m)
    decreases |s|
  {
    m :| m in s;
    assert s == (s - {m}) + {m};
    if s - {m} != {} {
      var y := HasLeast(s - {m});
      if y < m { m := y; }
    }
  }

  lemma {:induction false} LeastExists(s: set<Id>)
    requires s != {}
    ensures exists m :: IsLeast(s, m)
  {
    var m := HasLeast(s);
  }

  /** The rows of a query, in the order of their identifiers. */
  function Ordered(s: set<Id>): (r: seq<Id>)
    ensures Increasing(r) && forall id :: id in r <==> id in s
    decreases |s|
  {
    if s == {} then []
    else
      LeastExists(s);
      var m :| IsLeast(s, m);
      var rest := Ordered(s - {m});
      assert forall k :: k in rest ==> m < k;
      [m] + rest
  }

  // ---------------------------------------------------------------- a selection, in whatever order it was picked

  /** What the request schema lets through. */
  predicate Selectable(items: seq<Id>) { 1 <= |items| <= MAX_ITEMS && NoRepeat(items) }

  function Elements(items: seq<Id>): set<Id> { set id | id in items }

  /** `[...items].sort()` */
  function Sorted(items: seq<Id>): (r: seq<Id>)
    ensures Increasing(r) && forall id :: id in r <==> id in items
  {
    Ordered(Elements(items))
  }

  lemma {:induction false} CountOfNoRepeat(items: seq<Id>, id: Id)
    requires NoRepeat(items)
    ensures multiset(items)[id] == if id in items then 1 else 0
    decreases items
  {
    if items != [] {
      var rest := items[1..];
      assert items == [items[0]] + rest;
      CountOfNoRepeat(rest, id);
      assert items[0] !in rest;
    }
  }

  lemma {:induction false} SortedPermutes(items: seq<Id>)
    requires NoRepeat(items)
    ensures multiset(Sorted(items)) == multiset(items) && |Sorted(items)| == |items|
  {
    hide Sorted;
    forall id ensures multiset(Sorted(items))[id] == multiset(items)[id] {
      CountOfNoRepeat(items, id);
      CountOfNoRepeat(Sorted(items), id);
    }
    assert multiset(Sorted(items)) == multiset(items);
    assert |multiset(Sorted(items))| == |multiset(items)|;
  }

  lemma {:induction false} TotalPermuted(l: Ledger, a: seq<Id>, b: seq<Id>)
    requires multiset(a) == multiset(b)
    ensures Total(l, a) == Total(l, b)
    decreases |a|
  {
    if a == [] {
      assert |multiset(a)| == |multiset(b)|;
    } else {
      assert a[0] in multiset(b);
      var k :| 0 <= k < |b| && b[k] == a[0];
      RestPermuted(a, b, k);
      TotalPermuted(l, a[1..], b[..k] + b[k + 1..]);
      TotalWithout(l, b, k);
    }
  }

  lemma {:induction false} Parts(a: seq<Id>, b: seq<Id>, c: seq<Id>)
    ensures multiset(a + b + c) == multiset(a) + multiset(b) + multiset(c)
  {}

  lemma {:induction false} Cancelled(x: multiset<Id>, a: multiset<Id>, front: multiset<Id>, back: multiset<Id>)
    requires x + a == front + x + back
    ensures a == front + back
  {
    assert a == (x + a) - x;
    assert front + back == (front + x + back) - x;
  }

  lemma {:induction false} RestPermuted(a: seq<Id>, b: seq<Id>, k: nat)
    requires a != [] && k < |b| && b[k] == a[0] && multiset(a) == multiset(b)
    ensures multiset(a[1..]) == multiset(b[..k] + b[k + 1..])
  {
    var x, front, back := multiset{a[0]}, multiset(b[..k]), multiset(b[k + 1..]);
    assert a == [a[0]] + a[1..] && b == b[..k] + [b[k]] + b[k + 1..];
    assert multiset(a) == x + multiset(a[1..]);
    assert multiset(b) == front + x + back by { Parts(b[..k], [b[k]], b[k + 1..]); }
    assert multiset(b[..k] + b[k + 1..]) == front + back;
    Cancelled(x, multiset(a[1..]), front, back);
  }

  /** One more bonus adds its amount to the total. */
  lemma {:induction false} TotalIs(l: Ledger, items: seq<Id>, id: Id)
    requires id in l.heads
    ensures Total(l, []) == 0 && Total(l, items + [id]) == Total(l, items) + l.heads[id].amount
  {
    TotalWithout(l, items + [id], |items|);
    assert (items + [id])[..|items|] + (items + [id])[|items| + 1..] == items;
  }

  lemma {:induction false} TotalWithout(l: Ledger, b: seq<Id>, k: nat)
    requires k < |b|
    ensures Total(l, b) == AmountOf(l, b[k]) + Total(l, b[..k] + b[k + 1..])
  {
    if k == 0 {
      assert b[..0] + b[1..] == b[1..];
    } else {
      TotalWithout(l, b[1..], k - 1);
      var rest := b[..k] + b[k + 1..];
      assert rest[1..] == b[1..][..k - 1] + b[1..][k..] && rest[0] == b[0];
    }
  }

  function RowInScope(l: Ledger, access: Access, id: Id): bool
  {
    id in l.heads && l.heads[id].branch in access.branches
  }

  /** Rows of the batch, counted and summed; refused when there are none or one is out of scope. */
  function ReportOn(l: Ledger, batch: Id, access: Access): Result<Report, Error>
  {
    var items := Ordered(Members(l, batch));
    if items == [] || exists id :: id in items && !RowInScope(l, access, id) then Err(NotFound)
    else Ok(Report(|items|, Total(l, items), items))
  }

  ghost predicate SameElements(a: seq<Id>, b: seq<Id>) { forall id :: id in a <==> id in b }

  lemma {:induction false} Transfer(a: seq<Id>, b: seq<Id>, id: Id)
    requires SameElements(a, b)
    ensures id in a <==> id in b
  {}

  lemma {:induction false} TailsSame(a: seq<Id>, b: seq<Id>)
    requires Increasing(a) && Increasing(b) && SameElements(a, b) && a != [] && b != []
    ensures a[0] == b[0] && SameElements(a[1..], b[1..])
  {
    Transfer(a, b, a[0]);
    Transfer(a, b, b[0]);
    forall id ensures id in a[1..] <==> id in b[1..] {
      Transfer(a, b, id);
      if id in a[1..] { assert id != a[0]; }
      if id in b[1..] { assert id != b[0]; }
    }
  }

  lemma {:induction false} IncreasingUnique(a: seq<Id>, b: seq<Id>)
    requires Increasing(a) && Increasing(b) && SameElements(a, b)
    ensures a == b
    decreases |a|
  {
    hide SameElements;
    if a == [] {
      if b != [] { Transfer(a, b, b[0]); }
    } else if b == [] {
      Transfer(a, b, a[0]);
    } else {
      TailsSame(a, b);
      IncreasingUnique(a[1..], b[1..]);
      assert a == [a[0]] + a[1..] && b == [b[0]] + b[1..];
    }
  }

  lemma {:induction false} NoErrorNoItemError(l: Ledger, actor: User, access: Access, items: seq<Id>, id: Id)
    requires FirstError(l, actor, access, items).None? && id in items
    ensures ItemError(l, actor, access, id).None?
    decreases items
  {
    hide ItemError;
    if id != items[0] { NoErrorNoItemError(l, actor, access, items[1..], id); }
  }

  lemma {:induction false} SameAmounts(l: Ledger, m: Ledger, items: seq<Id>)
    requires l.heads == m.heads
    ensures Total(l, items) == Total(m, items)
  {
    if items != [] { SameAmounts(l, m, items[1..]); }
  }

  /** A settled batch is reported as exactly the items asked for, with the sum of their amounts. */
  lemma {:induction false} SettledReport(l: Ledger, key: Key, actor: User, items: seq<Id>, note: string, batch: Id,
                                         home: Branch, access: Access)
    requires Increasing(items) && items != []
    requires Refused(l, Settle(actor, items, note), batch, access).None?
    ensures var m := Written(l, key, Settle(actor, items, note), batch, home);
      ReportOn(m, batch, access) == Ok(Report(|items|, Total(l, items), items))
  {
    hide ItemError, Total, Increasing, Ordered;
    var m := Written(l, key, Settle(actor, items, note), batch, home);
    assert forall id :: id in Members(m, batch) <==> id in items;
    IncreasingUnique(Ordered(Members(m, batch)), items);
    SameAmounts(l, m, items);
    forall id | id in items ensures RowInScope(m, access, id) {
      NoErrorNoItemError(l, actor, access, items, id);
      AdmittedInScope(l, actor, access, id);
    }
  }

  lemma {:induction false} SortedReport(l: Ledger, picked: seq<Id>)
    requires Selectable(picked)
    ensures Sorted(picked) != [] && |Sorted(picked)| == |picked| && Total(l, Sorted(picked)) == Total(l, picked)
  {
    hide Sorted, Total;
    SortedPermutes(picked);
    TotalPermuted(l, Sorted(picked), picked);
  }

  lemma {:induction false} AdmittedInScope(l: Ledger, actor: User, access: Access, id: Id)
    requires ItemError(l, actor, access, id).None?
    ensures RowInScope(l, access, id)
  {}

  // ---------------------------------------------------------------- one operation under its key

  datatype Outcome = Done(ledger: Ledger) | Replayed(ref: Id) | Failed(error: Error)

  /** What the routes refuse before they look at the key: a lost permission hides even an old answer. */
  function Barred(p: Payload, access: Access): Option<Error>
  {
    if p.Request? then None
    else if !access.manages then Some(Forbidden)
    else if p.Award? && p.owner == p.actor then Some(Own)
    else None
  }

  /** An old answer is given again only to someone in whose scope it still lies. */
  function Replay(l: Ledger, p: Payload, ref: Id, access: Access): Outcome
  {
    match p
    case Request(_, _, _) => Replayed(ref)
    case Settle(_, _, _) => if ReportOn(l, ref, access).Err? then Failed(NotFound) else Replayed(ref)
    case _ => if RowInScope(l, access, ref) then Replayed(ref) else Failed(NotFound)
  }

  /** One operation under its key, as if nothing else ran: replay, conflict, refusal or effect and key together. */
  function Perform(l: Ledger, key: Key, p: Payload, ref: Id, home: Branch, access: Access): Outcome
  {
    var barred := Barred(p, access);
    if barred.Some? then Failed(barred.value)
    else if key in l.inbox then
      if l.inbox[key].payload != p then Failed(KeyReused) else Replay(l, p, l.inbox[key].ref, access)
    else
      match Refused(l, p, ref, access)
      case Some(e) => Failed(e)
      case None => Done(Written(l, key, p, ref, home))
  }

  /** The payload as it is carried out, recorded and compared: with its items sorted. */
  function Normal(p: Payload): Payload
  {
    if p.Settle? then p.(items := Sorted(p.items)) else p
  }

  predicate Malformed(p: Payload) { p.Settle? && !Selectable(p.items) }

  /** The answer to a request as it came in. */
  function Respond(l: Ledger, key: Key, body: Payload, ref: Id, home: Branch, access: Access): Outcome
  {
    var barred := Barred(body, access);
    if barred.Some? then Failed(barred.value)
    else if Malformed(body) then Failed(BadSelection)
    else Perform(l, key, Normal(body), ref, home, access)
  }

  /** The same bonuses picked in another order are the same request: carried out, replayed or refused alike. */
  lemma {:induction false} OrderDoesNotMatter(l: Ledger, key: Key, actor: User, a: seq<Id>, b: seq<Id>, note: string,
                                              batch: Id, home: Branch, access: Access)
    requires multiset(a) == multiset(b)
    ensures Respond(l, key, Settle(actor, a, note), batch, home, access)
         == Respond(l, key, Settle(actor, b, note), batch, home, access)
  {
    hide Perform, Ordered;
    assert |multiset(a)| == |multiset(b)|;
    forall id ensures id in a <==> id in b {
      assert id in a <==> id in multiset(a);
      assert id in b <==> id in multiset(b);
    }
    assert Elements(a) == Elements(b);
    NoRepeatByCount(a);
    NoRepeatByCount(b);
  }

  lemma {:induction false} NoRepeatByCount(items: seq<Id>)
    ensures NoRepeat(items) <==> forall id :: multiset(items)[id] <= 1
  {
    if NoRepeat(items) {
      forall id ensures multiset(items)[id] <= 1 { CountOfNoRepeat(items, id); }
    } else {
      var i, j :| 0 <= i < j < |items| && items[i] == items[j];
      assert items == items[..i] + [items[i]] + items[i + 1..j] + [items[j]] + items[j + 1..];
      assert multiset(items)[items[i]] >= 2;
    }
  }

  // ---------------------------------------------------------------- when an operation is done, and what it records

  /** A decision is done exactly on an undecided, unpaid request of somebody else, by a manager in whose scope it lies. */
  lemma {:induction false} DecideDoneIff(l: Ledger, key: Key, actor: User, id: Id, verdict: Verdict, ref: Id, home: Branch,
                                         access: Access)
    ensures var o := Respond(l, key, Decide(actor, id, verdict), ref, home, access);
      && (o.Done? <==>
            && access.manages && key !in l.inbox && id in l.heads && l.heads[id].branch in access.branches
            && l.heads[id].owner != actor && l.heads[id].origin == Requested
            && id !in l.decisions && id !in l.settlements)
      && (o.Done? ==>
            && o.ledger.decisions == l.decisions[id := Decision(verdict, actor)]
            && o.ledger.heads == l.heads && o.ledger.settlements == l.settlements
            && o.ledger.inbox == l.inbox[key := Message(Decide(actor, id, verdict), ref)]
            && StatusOf(o.ledger, id) == if verdict.Approve? then Approved else Rejected)
  {}

  /** A request is done whenever its key and number are new, and then waits for a decision. */
  lemma {:induction false} RequestDoneIff(l: Ledger, key: Key, owner: User, amount: nat, reason: string, id: Id,
                                          home: Branch, access: Access)
    requires id !in l.decisions && id !in l.settlements
    ensures var o := Respond(l, key, Request(owner, amount, reason), id, home, access);
      && (o.Done? <==> key !in l.inbox && id !in l.heads)
      && (o.Done? ==>
            && o.ledger.heads == l.heads[id := Head(owner, home, Requested, amount, reason, owner)]
            && o.ledger.decisions == l.decisions && o.ledger.settlements == l.settlements
            && o.ledger.inbox == l.inbox[key := Message(Request(owner, amount, reason), id)]
            && StatusOf(o.ledger, id) == Pending)
  {}

  /** An award is done by a manager for somebody else among the staff, and is approved from the start. */
  lemma {:induction false} AwardDoneIff(l: Ledger, key: Key, actor: User, owner: User, amount: nat, reason: string, id: Id,
                                        home: Branch, access: Access)
    requires id !in l.decisions && id !in l.settlements
    ensures var o := Respond(l, key, Award(actor, owner, amount, reason), id, home, access);
      && (o.Done? <==> access.manages && owner != actor && owner in access.staff && key !in l.inbox && id !in l.heads)
      && (o.Done? ==>
            && o.ledger.heads == l.heads[id := Head(owner, home, Awarded, amount, reason, actor)]
            && o.ledger.decisions == l.decisions && o.ledger.settlements == l.settlements
            && o.ledger.inbox == l.inbox[key := Message(Award(actor, owner, amount, reason), id)]
            && StatusOf(o.ledger, id) == Approved)
  {}

  /** What a bonus must be to be settled by this actor. */
  predicate Payable(l: Ledger, actor: User, access: Access, id: Id)
  {
    && id in l.heads && l.heads[id].branch in access.branches && l.heads[id].owner != actor && id !in l.settlements
    && (l.heads[id].origin == Awarded || (id in l.decisions && l.decisions[id].verdict.Approve?))
  }

  lemma {:induction false} ItemErrorIff(l: Ledger, actor: User, access: Access, id: Id)
    ensures ItemError(l, actor, access, id).None? <==> Payable(l, actor, access, id)
  {}

  lemma {:induction false} FirstErrorIff(l: Ledger, actor: User, access: Access, items: seq<Id>)
    ensures FirstError(l, actor, access, items).None? <==> forall id :: id in items ==> Payable(l, actor, access, id)
    decreases items
  {
    hide ItemError, Payable;
    if items != [] {
      ItemErrorIff(l, actor, access, items[0]);
      FirstErrorIff(l, actor, access, items[1..]);
      forall id ensures id in items <==> id == items[0] || id in items[1..] { assert items == [items[0]] + items[1..]; }
    }
  }

  /** A selection of one to five hundred different bonuses is settled exactly if each of them can be. */
  lemma {:induction false} SettleDoneIff(l: Ledger, key: Key, actor: User, picked: seq<Id>, note: string, batch: Id,
                                         home: Branch, access: Access)
    ensures var o := Respond(l, key, Settle(actor, picked, note), batch, home, access);
      && (o.Done? <==>
            && access.manages && 1 <= |picked| <= 500 && NoRepeat(picked) && key !in l.inbox && BatchUnused(l, batch)
            && forall id :: id in picked ==> Payable(l, actor, access, id))
      && (o.Done? ==>
            && o.ledger.settlements.Keys == l.settlements.Keys + (set id | id in picked)
            && (forall id :: id in picked ==> o.ledger.settlements[id] == Settlement(batch, actor, note))
            && (forall id :: id in l.settlements ==> o.ledger.settlements[id] == l.settlements[id])
            && o.ledger.heads == l.heads && o.ledger.decisions == l.decisions
            && o.ledger.inbox == l.inbox[key := Message(Settle(actor, Sorted(picked), note), batch)]
            && forall id :: id in picked ==> id in o.ledger.heads && StatusOf(o.ledger, id) == Settled)
  {
    hide FirstError, ItemError, Sorted, Increasing;
    FirstErrorIff(l, actor, access, Sorted(picked));
  }

  /** Whoever is no manager any more is told nothing, not even an old answer; nor is one who awards a bonus to himself. */
  lemma {:induction false} PermissionFirst(l: Ledger, key: Key, p: Payload, ref: Id, home: Branch, access: Access)
    requires !p.Request?
    ensures !access.manages ==> Respond(l, key, p, ref, home, access) == Failed(Forbidden)
    ensures access.manages && p.Award? && p.owner == p.actor ==> Respond(l, key, p, ref, home, access) == Failed(Own)
  {
    hide Perform;
  }

  predicate OutOfSight(l: Ledger, access: Access, id: Id) { id !in l.heads || l.heads[id].branch !in access.branches }

  /** Each refusal tells the truth about the request. */
  lemma {:induction false} RefusedBecause(l: Ledger, key: Key, p: Payload, ref: Id, home: Branch, access: Access)
    requires Respond(l, key, p, ref, home, access).Failed?
    ensures match Respond(l, key, p, ref, home, access).error
      case Forbidden => !p.Request? && !access.manages
      case KeyReused => key in l.inbox && l.inbox[key].payload != Normal(p)
      case BadSelection => p.Settle? && !(1 <= |p.items| <= 500 && NoRepeat(p.items))
      case Own =>
        || (p.Award? && p.owner == p.actor)
        || (p.Decide? && p.id in l.heads && l.heads[p.id].owner == p.actor)
        || (p.Settle? && exists id :: id in p.items && id in l.heads && l.heads[id].owner == p.actor)
      case NotReviewable => p.Decide? && p.id in l.heads && l.heads[p.id].origin == Awarded
      case Stale =>
        || (p.Decide? && (p.id in l.decisions || p.id in l.settlements))
        || (p.Settle? && exists id :: id in p.items && id in l.heads && StatusOf(l, id) != Approved)
      case BeneficiaryNotFound => p.Award? && p.owner !in access.staff
      case IdTaken => (p.Request? || p.Award?) && ref in l.heads
      case BatchTaken => p.Settle? && !BatchUnused(l, ref)
      case NotFound =>
        || key in l.inbox
        || (p.Decide? && OutOfSight(l, access, p.id))
        || (p.Settle? && exists id :: id in p.items && OutOfSight(l, access, id))
  {
    hide ReportOn, Sorted, FirstError, Increasing;
    if p.Settle? && FirstError(l, p.actor, access, Sorted(p.items)).Some? {
      FirstErrorTrue(l, p.actor, access, Sorted(p.items));
    }
  }

  /** The first error is that of one of the items. */
  lemma {:induction false} FirstErrorTrue(l: Ledger, actor: User, access: Access, items: seq<Id>)
    requires FirstError(l, actor, access, items).Some?
    ensures exists id :: id in items && ItemError(l, actor, access, id) == FirstError(l, actor, access, items)
    decreases items
  {
    hide ItemError;
    assert items[0] in items;
    if ItemError(l, actor, access, items[0]).None? {
      FirstErrorTrue(l, actor, access, items[1..]);
      var id :| id in items[1..] && ItemError(l, actor, access, id) == FirstError(l, actor, access, items[1..]);
      assert id in items;
    }
  }

  // ---------------------------------------------------------------- the register

  class Register {
    var heads: map<Id, Head>
    var decisions: map<Id, Decision>
    var settlements: map<Id, Settlement>
    var inbox: map<Key, Message>

    constructor ()
      ensures Contents() == Ledger(map[], map[], map[], map[])
    {
      heads, decisions, settlements, inbox := map[], map[], map[], map[];
    }

    function Contents(): Ledger
      reads this
    {
      Ledger(heads, decisions, settlements, inbox)
    }

    method CheckItems(actor: User, access: Access, items: seq<Id>) returns (e: Option<Error>)
      ensures e == FirstError(Contents(), actor, access, items)
    {
      hide StatusOf;
      for k := 0 to |items|
        invariant FirstError(Contents(), actor, access, items) == FirstError(Contents(), actor, access, items[k..])
      {
        assert items[k..][0] == items[k] && items[k..][1..] == items[k + 1..];
        var id := items[k];
        if id !in heads || heads[id].branch !in access.branches {
          return Some(NotFound);
        }
        if heads[id].owner == actor {
          return Some(Own);
        }
        if StatusOf(Contents(), id) != Approved {
          return Some(Stale);
        }
      }
      e := None;
    }

    method InsertSettlements(actor: User, items: seq<Id>, note: string, batch: Id)
      modifies this`settlements
      ensures settlements == old(settlements) + (map id | id in items :: Settlement(batch, actor, note))
    {
      for k := 0 to |items|
        invariant settlements == old(settlements) + (map id | id in items[..k] :: Settlement(batch, actor, note))
      {
        settlements := settlements[items[k] := Settlement(batch, actor, note)];
        assert items[..k + 1] == items[..k] + [items[k]];
      }
      assert items[..|items|] == items;
    }

    /** Bonuses picked in any order are locked, settled and reported in theirs. */
    method SettleBonuses(key: Key, actor: User, picked: seq<Id>, note: string, batch: Id, access: Access)
      returns (o: Outcome, r: Result<Report, Error>)
      modifies this
      ensures o == old(Respond(Contents(), key, Settle(actor, picked, note), batch, 0, access))
      ensures Contents() == if o.Done? then o.ledger else old(Contents())
      ensures o.Done? ==> r == Ok(Report(|picked|, Total(old(Contents()), picked), Sorted(picked)))
      ensures o.Replayed? ==> r == ReportOn(old(Contents()), o.ref, access) && r.Ok?
      ensures o.Failed? ==> r == Err(o.error)
      ensures o.Done? ==> forall id :: id in picked ==> id in settlements && settlements[id] == Settlement(batch, actor, note)
    {
      hide ReportOn, Total, Increasing, Sorted, Selectable;
      if !access.manages {
        return Failed(Forbidden), Err(Forbidden);
      }
      if !Selectable(picked) {
        return Failed(BadSelection), Err(BadSelection);
      }
      var items := Sorted(picked);
      var p := Settle(actor, items, note);
      SortedReport(Contents(), picked);
      if key in inbox {
        if inbox[key].payload != p {
          return Failed(KeyReused), Err(KeyReused);
        }
        r := SettlementResult(inbox[key].ref, access);
        if r.Err? {
          return Failed(NotFound), Err(NotFound);
        }
        return Replayed(inbox[key].ref), r;
      }
      var e := CheckItems(actor, access, items);
      if e.Some? {
        return Failed(e.value), Err(e.value);
      }
      if !BatchUnused(Contents(), batch) {
        return Failed(BatchTaken), Err(BatchTaken);
      }
      SettledReport(Contents(), key, actor, items, note, batch, 0, access);
      InsertSettlements(actor, items, note, batch);
      inbox := inbox[key := Message(p, batch)];
      o := Done(Contents());
      r := SettlementResult(batch, access);
    }

    method DecideBonus(key: Key, actor: User, id: Id, verdict: Verdict, access: Access) returns (o: Outcome)
      modifies this
      ensures o == old(Perform(Contents(), key, Decide(actor, id, verdict), id, 0, access))
      ensures Contents() == if o.Done? then o.ledger else old(Contents())
      ensures o.Done? ==> decisions == old(decisions)[id := Decision(verdict, actor)]
      ensures o.Done? ==> id in heads && StatusOf(Contents(), id) == if verdict.Approve? then Approved else Rejected
    {
      var p := Decide(actor, id, verdict);
      if !access.manages {
        return Failed(Forbidden);
      }
      if key in inbox {
        if inbox[key].payload != p {
          return Failed(KeyReused);
        }
        return if RowInScope(Contents(), access, inbox[key].ref) then Replayed(inbox[key].ref) else Failed(NotFound);
      }
      if id !in heads || heads[id].branch !in access.branches {
        return Failed(NotFound);
      }
      if heads[id].owner == actor {
        return Failed(Own);
      }
      var status := StatusOf(Contents(), id);
      if heads[id].origin != Requested {
        return Failed(NotReviewable);
      }
      if status != Pending {
        return Failed(Stale);
      }
      decisions := decisions[id := Decision(verdict, actor)];
      inbox := inbox[key := Message(p, id)];
      o := Done(Contents());
    }

    method AwardBonus(key: Key, actor: User, owner: User, amount: nat, reason: string, id: Id, home: Branch,
                      access: Access)
      returns (o: Outcome)
      modifies this
      ensures o == old(Perform(Contents(), key, Award(actor, owner, amount, reason), id, home, access))
      ensures Contents() == if o.Done? then o.ledger else old(Contents())
      ensures o.Done? ==> heads == old(heads)[id := Head(owner, home, Awarded, amount, reason, actor)]
    {
      var p := Award(actor, owner, amount, reason);
      if !access.manages {
        return Failed(Forbidden);
      }
      if owner == actor {
        return Failed(Own);
      }
      if key in inbox {
        if inbox[key].payload != p {
          return Failed(KeyReused);
        }
        return if RowInScope(Contents(), access, inbox[key].ref) then Replayed(inbox[key].ref) else Failed(NotFound);
      }
      if owner !in access.staff {
        return Failed(BeneficiaryNotFound);
      }
      if id in heads {
        return Failed(IdTaken);
      }
      heads := heads[id := Head(owner, home, Awarded, amount, reason, actor)];
      inbox := inbox[key := Message(p, id)];
      o := Done(Contents());
    }

    method RequestBonus(key: Key, owner: User, amount: nat, reason: string, id: Id, home: Branch, access: Access)
      returns (o: Outcome)
      modifies this
      ensures o == old(Perform(Contents(), key, Request(owner, amount, reason), id, home, access))
      ensures Contents() == if o.Done? then o.ledger else old(Contents())
      ensures o.Done? ==> heads == old(heads)[id := Head(owner, home, Requested, amount, reason, owner)]
    {
      var p := Request(owner, amount, reason);
      if key in inbox {
        return if inbox[key].payload != p then Failed(KeyReused) else Replayed(inbox[key].ref);
      }
      if id in heads {
        return Failed(IdTaken);
      }
      heads := heads[id := Head(owner, home, Requested, amount, reason, owner)];
      inbox := inbox[key := Message(p, id)];
      o := Done(Contents());
    }

    /** The batch as the caller is told of it. */
    method SettlementResult(batch: Id, access: Access) returns (r: Result<Report, Error>)
      ensures r == ReportOn(Contents(), batch, access)
    {
      hide Ordered;
      var rows := Ordered(Members(Contents(), batch));
      if rows == [] || exists id :: id in rows && !RowInScope(Contents(), access, id) {
        return Err(NotFound);
      }
      var total := 0;
      for k := 0 to |rows|
        invariant total + Total(Contents(), rows[k..]) == Total(Contents(), rows)
      {
        assert rows[k..][0] == rows[k] && rows[k..][1..] == rows[k + 1..];
        total := total + AmountOf(Contents(), rows[k]);
      }
      r := Ok(Report(|rows|, total, rows));
    }
  }
}
