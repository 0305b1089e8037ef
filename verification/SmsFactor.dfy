// SMS challenges and the operations that change them.
module SmsFactor {
  import opened Common
  import opened Decimals
  import opened CodeUnits

  type User = nat
  type Id = nat

  /** An address as the database compares it; its text is something else. */
  type Inet = nat

  datatype Purpose = Enroll | Login

  /** `secret` stands for the keyed digest of the code, `holdsCode` for the encrypted copy the worker sends from. */
  datatype Challenge = Challenge(user: User, purpose: Purpose, binding: nat, mobile: string, ip: Inet, secret: string,
                                 created: int, expires: int, attempts: nat, sent: bool, used: bool, holdsCode: bool)

  datatype Store = Store(challenges: map<Id, Challenge>, factors: map<User, string>)

  datatype Failure = InvalidMobile | Limited

  /** Times in microseconds. */
  const WINDOW: int := 900_000_000
  const LIFE: int := 120_000_000
  const QUOTA := 3

  // ---------------------------------------------------------------- quotas

  datatype Quota = ByMobile(mobile: string) | ByIp(ip: Inet) | ByUser(user: User)

  predicate CountsFor(q: Quota, c: Challenge)
  {
    match q
    case ByMobile(mobile) => c.mobile == mobile
    case ByIp(ip) => c.ip == ip
    case ByUser(user) => c.user == user
  }

  /** Challenges of one quota made after a moment, whatever became of them. */
  function Since(t: map<Id, Challenge>, q: Quota, after: int): set<Id>
  {
    set id | id in t && CountsFor(q, t[id]) && t[id].created > after
  }

  predicate Exhausted(t: map<Id, Challenge>, user: User, mobile: string, ip: Inet, now: int)
  {
    || |Since(t, ByMobile(mobile), now - WINDOW)| >= QUOTA
    || |Since(t, ByIp(ip), now - WINDOW)| >= QUOTA
    || |Since(t, ByUser(user), now - WINDOW)| >= QUOTA
  }

  // ---------------------------------------------------------------- what happens to a row

  function Spent(c: Challenge): Challenge
  {
    c.(used := true, holdsCode := false)
  }

  /** All unused challenges of a user that the test picks are used up and lose their code. */
  function SpendAll(t: map<Id, Challenge>, user: User, purposes: set<Purpose>): (r: map<Id, Challenge>)
    ensures r.Keys == t.Keys
    ensures forall id :: id in t ==>
      r[id] == if t[id].user == user && t[id].purpose in purposes && !t[id].used then Spent(t[id]) else t[id]
  {
    map id | id in t ::
      if t[id].user == user && t[id].purpose in purposes && !t[id].used then Spent(t[id]) else t[id]
  }

  /** One attempt: a right answer or a third try uses the challenge up. */
  function Tried(c: Challenge, right: bool): Challenge
  {
    var last := right || c.attempts >= 2;
    c.(attempts := c.attempts + 1, used := c.used || last, holdsCode := c.holdsCode && !last)
  }

  predicate SixDigits(code: string) { |code| == 6 && AllDigits(code) }

  predicate Right(c: Challenge, code: string) { SixDigits(code) && code == c.secret }

  /** Rows an answer may be measured against. */
  predicate Open(c: Challenge, user: User, purpose: Purpose, binding: nat, now: int)
  {
    c.user == user && c.purpose == purpose && c.binding == binding && !c.used && c.expires > now && c.attempts < 3 && c.sent
  }

  /** `ORDER BY created_at DESC LIMIT 1` */
  predicate Picks(t: map<Id, Challenge>, user: User, purpose: Purpose, binding: nat, now: int, picked: Option<Id>)
  {
    match picked
    case None => forall id :: id in t ==> !Open(t[id], user, purpose, binding, now)
    case Some(id) =>
      && id in t && Open(t[id], user, purpose, binding, now)
      && forall j :: j in t && Open(t[j], user, purpose, binding, now) ==> t[j].created <= t[id].created
  }

  function NewChallenge(user: User, purpose: Purpose, binding: nat, mobile: string, ip: Inet, secret: string,
                        start: int)
    : Challenge
  {
    Challenge(user, purpose, binding, mobile, ip, secret, start, start + LIFE, 0, false, false, true)
  }

  function Asked(s: Store, user: User, purpose: Purpose, binding: nat, mobile: string, ip: Inet, secret: string,
                 start: int, id: Id): Store
  {
    var c := NewChallenge(user, purpose, binding, mobile, ip, secret, start);
    s.(challenges := SpendAll(s.challenges, user, {purpose})[id := c])
  }

  function Answered(s: Store, user: User, purpose: Purpose, picked: Option<Id>, code: string): Store
    requires picked.Some? ==> picked.value in s.challenges
  {
    if picked.None? then s
    else
      var c := s.challenges[picked.value];
      var t := s.challenges[picked.value := Tried(c, Right(c, code))];
      if purpose.Enroll? && Right(c, code) then
        Store(SpendAll(t, user, {Enroll, Login}), s.factors[user := c.mobile])
      else s.(challenges := t)
  }

  function TurnedOff(s: Store, user: User): Store
  {
    Store(SpendAll(s.challenges, user, {Enroll, Login}), s.factors - {user})
  }

  /** The worker's first statement: codes of dead challenges are wiped. */
  function Wiped(t: map<Id, Challenge>, now: int): (r: map<Id, Challenge>)
    ensures r.Keys == t.Keys
    ensures forall id :: id in t ==>
      r[id] == if t[id].expires <= now || t[id].used then t[id].(holdsCode := false) else t[id]
  {
    map id | id in t :: if t[id].expires <= now || t[id].used then t[id].(holdsCode := false) else t[id]
  }

  /** Its last: the message is out. */
  function Delivered(t: map<Id, Challenge>, id: Id): map<Id, Challenge>
  {
    if id in t then t[id := t[id].(sent := true, holdsCode := false)] else t
  }

  predicate ValidMobile(mobile: string)
  {
    |mobile| == 11 && mobile[0] == '0' && mobile[1] == '9' && AllDigits(mobile)
  }

  lemma {:induction false} EitherPurpose(purpose: Purpose)
    ensures purpose in {Enroll, Login}
  {}

  // ---------------------------------------------------------------- the tables, changed in place

  class SmsTables {
    var challenges: map<Id, Challenge>
    var factors: map<User, string>

    constructor ()
      ensures Contents() == Store(map[], map[])
    {
      challenges, factors := map[], map[];
    }

    function Contents(): Store
      reads this
    {
      Store(challenges, factors)
    }

    /** One transaction: `asked` is the number of an enrolment already normalised, and unused for a login. */
    method Request(user: User, purpose: Purpose, binding: nat, asked: Option<string>, ip: Inet, secret: string,
                   start: int, id: Id)
      returns (r: Result<Id, Failure>)
      requires id !in challenges
      modifies this
      ensures var mobile := if purpose.Enroll? then asked
                            else if user in old(factors) then Some(old(factors)[user]) else None;
        && r == (if mobile.None? || !ValidMobile(mobile.value) then Err(InvalidMobile)
                 else if Exhausted(old(challenges), user, mobile.value, ip, start) then Err(Limited)
                 else Ok(id))
        && Contents() == (if r.Err? then old(Contents())
                          else Asked(old(Contents()), user, purpose, binding, mobile.value, ip, secret, start, id))
      ensures r.Ok? ==>
        && id in challenges && var mobile := challenges[id].mobile;
        && challenges[id] == Challenge(user, purpose, binding, mobile, ip, secret, start, start + 120_000_000, 0,
                                       false, false, true)
        && (if purpose.Enroll? then asked == Some(mobile) else user in factors && factors[user] == mobile)
      ensures factors == old(factors)
    {
      hide ValidMobile, Exhausted;
      var mobile := if purpose.Enroll? then asked else if user in factors then Some(factors[user]) else None;
      if mobile.None? || !ValidMobile(mobile.value) {
        return Err(InvalidMobile);
      }
      if Exhausted(challenges, user, mobile.value, ip, start) {
        return Err(Limited);
      }
      challenges := SpendAll(challenges, user, {purpose});
      challenges := challenges[id := NewChallenge(user, purpose, binding, mobile.value, ip, secret, start)];
      r := Ok(id);
    }

    /** Measures an answer against the row picked; the number it was sent to, if the answer is right. */
    method Consume(picked: Option<Id>, code: string) returns (mobile: Option<string>)
      requires picked.Some? ==> picked.value in challenges
      modifies this`challenges
      ensures picked.None? ==> challenges == old(challenges) && mobile == None
      ensures picked.Some? ==>
        && var c := old(challenges)[picked.value];
        && challenges == old(challenges)[picked.value := Tried(c, Right(c, code))]
        && mobile == if Right(c, code) then Some(c.mobile) else None
      // in plain terms: six digits that are the secret; the third try is the last
      ensures picked.Some? ==>
        && var c := old(challenges)[picked.value];
        && var right := |code| == 6 && (forall i :: 0 <= i < 6 ==> '0' <= code[i] <= '9') && code == c.secret;
        && var over := right || c.attempts >= 2;
        && mobile == (if right then Some(c.mobile) else None)
        && challenges == old(challenges)[picked.value := c.(attempts := c.attempts + 1, used := c.used || over,
                                                            holdsCode := c.holdsCode && !over)]
    {
      if picked.None? {
        return None;
      }
      var row := challenges[picked.value];
      var ok := SixDigits(code) && code == row.secret;
      challenges := challenges[picked.value :=
        row.(attempts := row.attempts + 1,
             used := if ok || row.attempts >= 2 then true else row.used,
             holdsCode := if ok || row.attempts >= 2 then false else row.holdsCode)];
      mobile := if ok then Some(row.mobile) else None;
    }

    method VerifyLogin(user: User, binding: nat, code: string, now: int, picked: Option<Id>) returns (ok: bool)
      requires Picks(challenges, user, Login, binding, now, picked)
      modifies this
      ensures Contents() == Answered(old(Contents()), user, Login, picked, code)
      ensures ok <==>
        && picked.Some? && |code| == 6 && (forall i :: 0 <= i < 6 ==> '0' <= code[i] <= '9')
        && code == old(challenges)[picked.value].secret
        && user in old(factors) && old(factors)[user] == old(challenges)[picked.value].mobile
      ensures factors == old(factors)
    {
      var mobile := Consume(picked, code);
      ok := mobile.Some? && user in factors && factors[user] == mobile.value;
    }

    method ConfirmEnrollment(user: User, session: nat, code: string, now: int, picked: Option<Id>) returns (ok: bool)
      requires Picks(challenges, user, Enroll, session, now, picked)
      modifies this
      ensures Contents() == Answered(old(Contents()), user, Enroll, picked, code)
      ensures ok <==>
        && picked.Some? && |code| == 6 && (forall i :: 0 <= i < 6 ==> '0' <= code[i] <= '9')
        && code == old(challenges)[picked.value].secret
      ensures factors == if ok then old(factors)[user := old(challenges)[picked.value].mobile] else old(factors)
    {
      var mobile := Consume(picked, code);
      if mobile.None? {
        return false;
      }
      factors := factors[user := mobile.value];
      challenges := SpendAll(challenges, user, {Enroll, Login});
      ok := true;
    }

    method Disable(user: User)
      modifies this
      ensures Contents() == TurnedOff(old(Contents()), user)
      ensures factors == old(factors) - {user} && challenges.Keys == old(challenges).Keys
      ensures forall id :: id in challenges && challenges[id].user == user ==> challenges[id].used
      ensures forall id :: id in challenges && old(challenges)[id].user != user ==> challenges[id] == old(challenges)[id]
    {
      factors := factors - {user};
      forall id | id in challenges ensures challenges[id].purpose in {Enroll, Login} { EitherPurpose(challenges[id].purpose); }
      challenges := SpendAll(challenges, user, {Enroll, Login});
    }
  }

  // ---------------------------------------------------------------- the order of the advisory locks

  function LockTexts(mobile: string, ip: string): seq<string>
  {
    var m, i := "mobile:" + mobile, "ip:" + ip;
    if Before(Units(i), Units(m)) then [i, m] else [m, i]
  }

  /** Sorting always puts the address before the number, whatever they are. */
  lemma {:induction false} AddressFirst(mobile: string, ip: string)
    ensures LockTexts(mobile, ip) == ["ip:" + ip, "mobile:" + mobile]
  {
    var m, i := "mobile:" + mobile, "ip:" + ip;
    assert Units(i)[0] == 'i' as nat && Units(m)[0] == 'm' as nat;
  }
}
