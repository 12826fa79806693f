/** Redis leader election with SET NX and a renewer: timed runs of any number of electors over one key. */
module LeaderElection {
  import opened Options

  type ElectorId = nat
  type RenewerId = nat

  /** The key in Redis: who set it, and when it expires unless refreshed. */
  datatype Entry = Entry(owner: ElectorId, expires: real)

  /** A renewer goroutine: when its ticker next fires, whether its context was cancelled, and how many of its
      EXPIREs in a row had no effect (a count the program does not keep). */
  datatype Renewer = Renewer(tick: real, cancelled: bool, lost: nat)

  /** `current` is the renewer the stored cancel function belongs to. `pending` is when SET NX took effect, while its
      reply is under way; `releasing` is set from the release script until the flag is cleared. The lock keeps both
      and any further Acquire or Release apart. */
  datatype Elector = Elector(isLeader: bool, renewers: map<RenewerId, Renewer>, next: RenewerId,
                             current: Option<RenewerId>, pending: Option<real>, releasing: bool)

  datatype State = State(now: real, key: Option<Entry>, electors: map<ElectorId, Elector>)

  /** The time to live, and what the surroundings allow: how long after a tick the refresh may take effect, how long
      the reply to SET NX may take, and how many EXPIREs of one renewer in a row may have no effect. */
  datatype Config = Config(ttl: real, delay: real, reply: real, losses: nat)

  datatype Action =
    | Join(i: ElectorId)
    | Advance(to: real)
    | SetNX(i: ElectorId)
    | Reply(i: ElectorId)
    | ReplyLost(i: ElectorId)
    | Renew(i: ElectorId, j: RenewerId, nextTick: real)
    | RenewWithoutExpire(i: ElectorId, j: RenewerId, nextTick: real)
    | RenewError(i: ElectorId, j: RenewerId)
    | StaleExit(i: ElectorId, j: RenewerId, ticked: bool)
    | BeginRelease(i: ElectorId, deleted: bool)
    | EndRelease(i: ElectorId)

  predicate Live(key: Option<Entry>, now: real) {
    key.Some? && now < key.value.expires
  }

  predicate Owns(key: Option<Entry>, now: real, i: ElectorId) {
    Live(key, now) && key.value.owner == i
  }

  // ---------- the elector's operations ----------

  const NEW_ELECTOR := Elector(false, map[], 0, None, None, false)

  /** SET NX with the time to live. */
  function SetNXOn(c: Config, now: real, key: Option<Entry>, i: ElectorId, e: Elector): (Elector, Option<Entry>, bool) {
    if Live(key, now) then (e, key, false) else (e.(pending := Some(now)), Some(Entry(i, now + c.ttl)), true)
  }

  /** The reply to a SET NX that succeeded makes the elector leader and starts a renewer. */
  function ReplyOn(c: Config, now: real, e: Elector): Elector {
    e.(isLeader := true, renewers := e.renewers[e.next := Renewer(now + c.ttl / 3.0, false, 0)],
       next := e.next + 1, current := Some(e.next), pending := None)
  }

  /** One tick of a renewer: GET, and EXPIRE where the key is still this elector's; otherwise leadership is cleared
      and the renewer ends. `expired` tells whether EXPIRE took effect. */
  function RenewOn(c: Config, now: real, key: Option<Entry>, i: ElectorId, e: Elector, j: RenewerId, nextTick: real,
                   expired: bool): (Elector, Option<Entry>)
    requires j in e.renewers
  {
    if Owns(key, now, i) then
      var r := e.renewers[j];
      (e.(renewers := e.renewers[j := r.(tick := nextTick, lost := if expired then 0 else r.lost + 1)]),
       if expired then Some(Entry(i, now + c.ttl)) else key)
    else (Lost(e, j), key)
  }

  function Lost(e: Elector, j: RenewerId): Elector {
    e.(isLeader := false, renewers := e.renewers - {j})
  }

  /** Cancels the current renewer and deletes the key if it is this elector's; the flag still stands. */
  function ReleaseOn(now: real, key: Option<Entry>, i: ElectorId, e: Elector, deleted: bool): (Elector, Option<Entry>) {
    (e.(releasing := true,
        renewers := if e.current.Some? && e.current.value in e.renewers
                    then e.renewers[e.current.value := e.renewers[e.current.value].(cancelled := true)]
                    else e.renewers),
     if deleted && Owns(key, now, i) then None else key)
  }

  // ---------- runs ----------

  function Initial(): State { State(0.0, None, map[]) }

  /** A renewer that was not cancelled acts at most the delay after its tick. */
  predicate ActsInTime(c: Config, r: Renewer, to: real) { r.cancelled || to <= r.tick + c.delay }

  predicate ElectorInTime(c: Config, e: Elector, to: real) {
    && (e.pending.Some? ==> to <= e.pending.value + c.reply)
    && forall j :: j in e.renewers ==> ActsInTime(c, e.renewers[j], to)
  }

  /** Time goes on only as far as everything due by then has happened. */
  predicate InTime(c: Config, s: State, to: real) {
    forall i :: i in s.electors ==> ElectorInTime(c, s.electors[i], to)
  }

  /** The elector is not inside Acquire or Release. */
  predicate Unlocked(s: State, i: ElectorId) {
    i in s.electors && s.electors[i].pending.None? && !s.electors[i].releasing
  }

  predicate Ready(s: State, i: ElectorId, j: RenewerId) {
    && i in s.electors && j in s.electors[i].renewers && !s.electors[i].renewers[j].cancelled
    && s.electors[i].renewers[j].tick <= s.now
  }

  /** A ticker fires every third of the time to live; only a renewer that is later than that misses ticks. */
  predicate NextTick(c: Config, r: Renewer, now: real, nextTick: real) {
    && r.tick + c.ttl / 3.0 <= nextTick <= now + c.ttl / 3.0
    && (now < r.tick + c.ttl / 3.0 ==> nextTick == r.tick + c.ttl / 3.0)
  }

  function Put(s: State, i: ElectorId, e: Elector, key: Option<Entry>): State {
    s.(electors := s.electors[i := e], key := key)
  }

  function TryRenew(c: Config, s: State, i: ElectorId, j: RenewerId, nextTick: real, expired: bool): Option<State> {
    if !Ready(s, i, j) || !NextTick(c, s.electors[i].renewers[j], s.now, nextTick) then None
    else if !expired && s.electors[i].renewers[j].lost >= c.losses then None
    else
      var (e, key) := RenewOn(c, s.now, s.key, i, s.electors[i], j, nextTick, expired);
      Some(Put(s, i, e, key))
  }

  /** One step, or None where it cannot happen. */
  function Step(c: Config, s: State, a: Action): Option<State> {
    match a
    case Join(i) => if i in s.electors then None else Some(Put(s, i, NEW_ELECTOR, s.key))
    case Advance(to) => if to < s.now || !InTime(c, s, to) then None else Some(s.(now := to))
    case SetNX(i) =>
      if !Unlocked(s, i) then None
      else
        var (e, key, _) := SetNXOn(c, s.now, s.key, i, s.electors[i]);
        Some(Put(s, i, e, key))
    case Reply(i) =>
      if i !in s.electors || s.electors[i].pending.None? then None
      else Some(Put(s, i, ReplyOn(c, s.now, s.electors[i]), s.key))
    case ReplyLost(i) =>
      if i !in s.electors || s.electors[i].pending.None? then None
      else Some(Put(s, i, s.electors[i].(pending := None), s.key))
    case Renew(i, j, nextTick) => TryRenew(c, s, i, j, nextTick, true)
    case RenewWithoutExpire(i, j, nextTick) => TryRenew(c, s, i, j, nextTick, false)
    case RenewError(i, j) =>
      if !Ready(s, i, j) then None else Some(Put(s, i, Lost(s.electors[i], j), s.key))
    case StaleExit(i, j, ticked) =>
      if i !in s.electors || j !in s.electors[i].renewers || !s.electors[i].renewers[j].cancelled then None
      else if ticked then Some(Put(s, i, Lost(s.electors[i], j), s.key))
      else Some(Put(s, i, s.electors[i].(renewers := s.electors[i].renewers - {j}), s.key))
    case BeginRelease(i, deleted) =>
      if !Unlocked(s, i) then None
      else
        var (e, key) := ReleaseOn(s.now, s.key, i, s.electors[i], deleted);
        Some(Put(s, i, e, key))
    case EndRelease(i) =>
      if i !in s.electors || !s.electors[i].releasing then None
      else Some(Put(s, i, s.electors[i].(isLeader := false, releasing := false), s.key))
  }

  function Run(c: Config, s: State, actions: seq<Action>): Option<State> {
    if actions == [] then Some(s)
    else match Run(c, s, actions[..|actions| - 1])
      case None => None
      case Some(r) => Step(c, r, actions[|actions| - 1])
  }

  // ---------- safety ----------

  /** n thirds of the time to live. */
  function Thirds(ttl: real, n: nat): (t: real)
    ensures ttl >= 0.0 ==> t >= 0.0
  {
    if n == 0 then 0.0 else Thirds(ttl, n - 1) + ttl / 3.0
  }

  predicate Sensible(c: Config) { c.ttl > 0.0 && c.delay >= 0.0 && c.reply >= 0.0 }

  /** What the surroundings may do adds up to less than two thirds of the time to live. */
  predicate Tolerable(c: Config) {
    c.reply + c.delay + Thirds(c.ttl, c.losses) < 2.0 * c.ttl / 3.0
  }

  /** The flag is set, and the elector is not about to clear it. */
  predicate Leads(e: Elector) { e.isLeader && !e.releasing }

  /** A renewer that refreshes the key before it can expire, with all the losses still allowed to it. */
  predicate Guards(c: Config, key: Entry, r: Renewer) {
    !r.cancelled && r.lost <= c.losses && r.tick + c.delay + Thirds(c.ttl, c.losses - r.lost) < key.expires
  }

  ghost predicate Guarded(c: Config, key: Entry, e: Elector) {
    exists j :: j in e.renewers && Guards(c, key, e.renewers[j])
  }

  /** Who leads owns the live key, and one of its renewers guards it; who waits for the reply owns it too. */
  ghost predicate ElectorOk(c: Config, now: real, key: Option<Entry>, i: ElectorId, e: Elector) {
    && (Leads(e) ==> Owns(key, now, i) && Guarded(c, key.value, e))
    && (e.pending.Some? ==>
          Owns(key, now, i) && e.pending.value <= now && e.pending.value + c.ttl <= key.value.expires)
    && ElectorInTime(c, e, now)
    && (forall j :: j in e.renewers ==> j < e.next)
  }

  ghost predicate OkAt(c: Config, s: State, i: ElectorId) {
    i in s.electors ==> ElectorOk(c, s.now, s.key, i, s.electors[i])
  }

  ghost predicate Inv(c: Config, s: State) {
    forall i :: OkAt(c, s, i)
  }

  /** An elector that neither leads nor waits for a reply owes nothing. */
  lemma Idle(c: Config, now: real, key: Option<Entry>, i: ElectorId, e: Elector)
    requires !Leads(e) && e.pending.None? && ElectorInTime(c, e, now) && forall j :: j in e.renewers ==> j < e.next
    ensures ElectorOk(c, now, key, i, e)
  {
  }

  /** Without the live key an elector neither leads nor waits for a reply. */
  lemma OthersIdle(c: Config, s: State, k: ElectorId)
    requires OkAt(c, s, k) && k in s.electors && !Owns(s.key, s.now, k)
    ensures !Leads(s.electors[k]) && s.electors[k].pending.None?
  {
  }

  lemma AdvanceKeeps(c: Config, s: State, to: real, k: ElectorId)
    requires Sensible(c) && Tolerable(c) && OkAt(c, s, k) && InTime(c, s, to) && k in s.electors && s.now <= to
    ensures ElectorOk(c, to, s.key, k, s.electors[k])
  {
    var e := s.electors[k];
    assert ElectorInTime(c, e, to);
    if Leads(e) {
      var j :| j in e.renewers && Guards(c, s.key.value, e.renewers[j]);
      assert ActsInTime(c, e.renewers[j], to);
      assert Guarded(c, s.key.value, e);
    }
  }

  /** A change to elector i and the key leaves the others as they were, if the key stays or only i could own it. */
  lemma OthersKept(c: Config, s: State, i: ElectorId, e: Elector, key: Option<Entry>, k: ElectorId)
    requires OkAt(c, s, k) && k != i && (key == s.key || !Live(s.key, s.now) || Owns(s.key, s.now, i))
    ensures OkAt(c, Put(s, i, e, key), k)
  {
    if k in s.electors && key != s.key {
      OthersIdle(c, s, k);
      Idle(c, s.now, key, k, s.electors[k]);
    }
  }

  lemma SetNXKeeps(c: Config, s: State, i: ElectorId)
    requires Sensible(c) && i in s.electors && OkAt(c, s, i)
    ensures var (e, key, _) := SetNXOn(c, s.now, s.key, i, s.electors[i]); ElectorOk(c, s.now, key, i, e)
  {
    if !Live(s.key, s.now) {
      OthersIdle(c, s, i);
    }
  }

  lemma ReplyKeeps(c: Config, now: real, key: Option<Entry>, i: ElectorId, e: Elector)
    requires Sensible(c) && Tolerable(c) && ElectorOk(c, now, key, i, e) && e.pending.Some?
    ensures ElectorOk(c, now, key, i, ReplyOn(c, now, e))
  {
    var f := ReplyOn(c, now, e);
    assert Guards(c, key.value, f.renewers[e.next]);
  }

  /** A refresh in time makes its renewer a guard again; a lost one uses up a third of the slack. */
  lemma RenewKeeps(c: Config, now: real, key: Option<Entry>, i: ElectorId, e: Elector, j: RenewerId, nextTick: real,
                   expired: bool)
    requires Sensible(c) && Tolerable(c) && ElectorOk(c, now, key, i, e)
    requires j in e.renewers && !e.renewers[j].cancelled
    requires NextTick(c, e.renewers[j], now, nextTick) && (!expired ==> e.renewers[j].lost < c.losses)
    ensures var (f, after) := RenewOn(c, now, key, i, e, j, nextTick, expired); ElectorOk(c, now, after, i, f)
  {
    var (f, after) := RenewOn(c, now, key, i, e, j, nextTick, expired);
    if Owns(key, now, i) && Leads(e) {
      if expired {
        assert Guards(c, after.value, f.renewers[j]);
      } else {
        LostKeepsGuard(c, key.value, e, j, now, nextTick);
      }
    }
  }

  lemma LostKeepsGuard(c: Config, key: Entry, e: Elector, j: RenewerId, now: real, nextTick: real)
    requires Sensible(c) && Tolerable(c) && Guarded(c, key, e)
    requires j in e.renewers && ActsInTime(c, e.renewers[j], now) && !e.renewers[j].cancelled
    requires NextTick(c, e.renewers[j], now, nextTick) && e.renewers[j].lost < c.losses
    ensures var r := e.renewers[j];
            Guarded(c, key, e.(renewers := e.renewers[j := r.(tick := nextTick, lost := r.lost + 1)]))
  {
    var r := e.renewers[j];
    var f := e.(renewers := e.renewers[j := r.(tick := nextTick, lost := r.lost + 1)]);
    var g :| g in e.renewers && Guards(c, key, e.renewers[g]);
    if g == j {
      assert Thirds(c.ttl, c.losses) == Thirds(c.ttl, c.losses - 1) + c.ttl / 3.0;
      assert now < r.tick + c.ttl / 3.0;
      assert Guards(c, key, f.renewers[j]);
    } else {
      assert Guards(c, key, f.renewers[g]);
    }
  }

  /** A renewer that was cancelled guards nothing. */
  lemma StaleKeeps(c: Config, now: real, key: Option<Entry>, i: ElectorId, e: Elector, j: RenewerId)
    requires ElectorOk(c, now, key, i, e) && j in e.renewers && e.renewers[j].cancelled
    ensures ElectorOk(c, now, key, i, e.(renewers := e.renewers - {j}))
  {
    if Leads(e) {
      var g :| g in e.renewers && Guards(c, key.value, e.renewers[g]);
      assert g in (e.renewers - {j}) && (e.renewers - {j})[g] == e.renewers[g];
    }
  }

  /** The elector that acts keeps what it owes. */
  lemma ActorStep(c: Config, s: State, a: Action)
    requires Sensible(c) && Tolerable(c) && Step(c, s, a).Some? && !a.Advance? && OkAt(c, s, a.i)
    ensures OkAt(c, Step(c, s, a).value, a.i)
  {
    match a
    case Join(i) =>
    case SetNX(i) => SetNXKeeps(c, s, i);
    case Reply(i) => ReplyKeeps(c, s.now, s.key, i, s.electors[i]);
    case ReplyLost(i) =>
    case Renew(i, j, nextTick) => RenewKeeps(c, s.now, s.key, i, s.electors[i], j, nextTick, true);
    case RenewWithoutExpire(i, j, nextTick) => RenewKeeps(c, s.now, s.key, i, s.electors[i], j, nextTick, false);
    case RenewError(i, j) =>
    case StaleExit(i, j, ticked) => StaleKeeps(c, s.now, s.key, i, s.electors[i], j);
    case BeginRelease(i, deleted) =>
    case EndRelease(i) =>
  }

  /** What an action other than the passing of time does to the state: it puts one elector, and changes the key only
      where no other elector can own it. */
  lemma ActorOnly(c: Config, s: State, a: Action)
    requires Step(c, s, a).Some? && !a.Advance?
    ensures var r := Step(c, s, a).value;
            && a.i in r.electors && r == Put(s, a.i, r.electors[a.i], r.key)
            && (r.key == s.key || !Live(s.key, s.now) || Owns(s.key, s.now, a.i))
  {
  }

  lemma InvStep(c: Config, s: State, a: Action)
    requires Sensible(c) && Tolerable(c) && Inv(c, s) && Step(c, s, a).Some?
    ensures Inv(c, Step(c, s, a).value)
  {
    var r := Step(c, s, a).value;
    forall k
      ensures OkAt(c, r, k)
    {
      assert OkAt(c, s, k);
      if a.Advance? {
        if k in s.electors {
          AdvanceKeeps(c, s, a.to, k);
        }
      } else if k == a.i {
        ActorStep(c, s, a);
      } else {
        ActorOnly(c, s, a);
        OthersKept(c, s, a.i, r.electors[a.i], r.key, k);
      }
    }
  }

  ghost predicate Reaches(c: Config, actions: seq<Action>, s: State) {
    Run(c, Initial(), actions) == Some(s)
  }

  lemma {:induction false} InvRun(c: Config, actions: seq<Action>, s: State)
    requires Sensible(c) && Tolerable(c) && Reaches(c, actions, s)
    ensures Inv(c, s)
  {
    if actions != [] {
      var n := |actions| - 1;
      var p := Run(c, Initial(), actions[..n]).value;
      InvRun(c, actions[..n], p);
      InvStep(c, p, actions[n]);
    }
  }

  ghost predicate AtMostOne(s: State) {
    forall i, k :: i in s.electors && k in s.electors && Leads(s.electors[i]) && Leads(s.electors[k]) ==> i == k
  }

  /** If the surroundings stay within less than two thirds of the time to live, in every run at most one elector
      leads. */
  lemma AtMostOneLeader(c: Config, actions: seq<Action>, s: State)
    requires Sensible(c) && Tolerable(c) && Reaches(c, actions, s)
    ensures AtMostOne(s)
  {
    InvRun(c, actions, s);
    forall i, k | i in s.electors && k in s.electors && Leads(s.electors[i]) && Leads(s.electors[k])
      ensures i == k
    {
      assert OkAt(c, s, i) && OkAt(c, s, k);
    }
  }

  /** And who leads owns the key, which has not expired. */
  lemma LeaderOwnsKey(c: Config, actions: seq<Action>, s: State, i: ElectorId)
    requires Sensible(c) && Tolerable(c) && Reaches(c, actions, s) && i in s.electors && Leads(s.electors[i])
    ensures s.key.Some? && s.key.value.owner == i && s.now < s.key.value.expires
  {
    InvRun(c, actions, s);
    assert OkAt(c, s, i);
  }

  // ---------- two leaders ----------

  lemma {:induction false} RunCons(c: Config, s: State, a: Action, rest: seq<Action>)
    requires Step(c, s, a).Some?
    ensures Run(c, s, [a] + rest) == Run(c, Step(c, s, a).value, rest)
  {
    if rest == [] {
      assert ([a] + rest)[..0] == [] && Run(c, s, [a] + rest) == Step(c, s, a);
    } else {
      RunCons(c, s, a, rest[..|rest| - 1]);
      assert ([a] + rest)[..|rest|] == [a] + rest[..|rest| - 1];
    }
  }

  /** Nothing of the elector is under way, except perhaps one renewer. */
  ghost predicate QuietBut(e: Elector, n: Option<RenewerId>) {
    e.pending.None? && forall j :: j in e.renewers ==> e.renewers[j].cancelled || n == Some(j)
  }

  ghost predicate AllQuietBut(s: State, i: ElectorId, n: Option<RenewerId>) {
    forall x :: x in s.electors ==> QuietBut(s.electors[x], if x == i then n else None)
  }

  lemma TimeMayPass(c: Config, s: State, i: ElectorId, n: Option<RenewerId>, to: real)
    requires AllQuietBut(s, i, n) && i in s.electors && s.now <= to
    requires n.Some? && n.value in s.electors[i].renewers ==> ActsInTime(c, s.electors[i].renewers[n.value], to)
    ensures Step(c, s, Advance(to)) == Some(s.(now := to))
  {
    forall x | x in s.electors
      ensures ElectorInTime(c, s.electors[x], to)
    {
      assert QuietBut(s.electors[x], if x == i then n else None);
    }
  }

  /** Once no key is live, an elector can become leader at once. */
  lemma TakeOver(c: Config, s: State, k: ElectorId) returns (r: State)
    requires Unlocked(s, k) && !Live(s.key, s.now)
    ensures Run(c, s, [SetNX(k), Reply(k)]) == Some(r) && r.electors.Keys == s.electors.Keys && r.now == s.now
    ensures Leads(r.electors[k]) && forall x :: x in s.electors && x != k ==> r.electors[x] == s.electors[x]
  {
    var s1 := Step(c, s, SetNX(k)).value;
    r := Step(c, s1, Reply(k)).value;
    RunCons(c, s1, Reply(k), []);
    RunCons(c, s, SetNX(k), [Reply(k)] + []);
    assert [SetNX(k)] + ([Reply(k)] + []) == [SetNX(k), Reply(k)];
  }

  /** Elector i leads with renewer n, whose losses can outlast the key, while k waits. */
  ghost predicate Losing(c: Config, s: State, i: ElectorId, k: ElectorId, n: RenewerId) {
    && i != k && i in s.electors && Unlocked(s, k) && AllQuietBut(s, i, Some(n))
    && Leads(s.electors[i]) && n in s.electors[i].renewers && Owns(s.key, s.now, i)
    && var r := s.electors[i].renewers[n];
       && !r.cancelled && r.lost <= c.losses && s.now <= r.tick
       && s.key.value.expires <= r.tick + c.delay + Thirds(c.ttl, c.losses - r.lost)
  }

  /** The key expires before the renewer's next action, and k takes over although i still leads. */
  lemma KeyExpires(c: Config, s: State, i: ElectorId, k: ElectorId, n: RenewerId)
    returns (actions: seq<Action>, r: State)
    requires Losing(c, s, i, k, n) && s.key.value.expires <= s.electors[i].renewers[n].tick + c.delay
    ensures Run(c, s, actions) == Some(r) && TwoLeaders(r, i, k)
  {
    var to := s.key.value.expires;
    TimeMayPass(c, s, i, Some(n), to);
    r := TakeOver(c, s.(now := to), k);
    actions := [Advance(to)] + [SetNX(k), Reply(k)];
    RunCons(c, s, Advance(to), [SetNX(k), Reply(k)]);
  }

  ghost predicate TwoLeaders(s: State, i: ElectorId, k: ElectorId) {
    i != k && i in s.electors && k in s.electors && Leads(s.electors[i]) && Leads(s.electors[k])
  }

  /** One more EXPIRE is lost, at its tick. */
  lemma LoseOne(c: Config, s: State, i: ElectorId, k: ElectorId, n: RenewerId) returns (r: State)
    requires Sensible(c) && Losing(c, s, i, k, n)
    requires s.key.value.expires > s.electors[i].renewers[n].tick + c.delay
    ensures var tick := s.electors[i].renewers[n].tick;
            && Step(c, s, Advance(tick)).Some?
            && Step(c, Step(c, s, Advance(tick)).value, RenewWithoutExpire(i, n, tick + c.ttl / 3.0)) == Some(r)
    ensures Losing(c, r, i, k, n) && r.electors[i].renewers[n].lost == s.electors[i].renewers[n].lost + 1
  {
    var tick := s.electors[i].renewers[n].tick;
    TimeMayPass(c, s, i, Some(n), tick);
    var s1 := s.(now := tick);
    r := Step(c, s1, RenewWithoutExpire(i, n, tick + c.ttl / 3.0)).value;
    forall x | x in r.electors
      ensures QuietBut(r.electors[x], if x == i then Some(n) else None)
    {
      assert QuietBut(s.electors[x], if x == i then Some(n) else None);
    }
  }

  /** Losing EXPIREs tick after tick until the key runs out. */
  lemma {:induction false} LoseUntilExpiry(c: Config, s: State, i: ElectorId, k: ElectorId, n: RenewerId)
    returns (actions: seq<Action>, r: State)
    requires Sensible(c) && Losing(c, s, i, k, n)
    ensures Run(c, s, actions) == Some(r) && TwoLeaders(r, i, k)
    decreases c.losses - s.electors[i].renewers[n].lost
  {
    var tick := s.electors[i].renewers[n].tick;
    if s.key.value.expires <= tick + c.delay {
      actions, r := KeyExpires(c, s, i, k, n);
    } else {
      var s2 := LoseOne(c, s, i, k, n);
      var s1 := Step(c, s, Advance(tick)).value;
      var renew := RenewWithoutExpire(i, n, tick + c.ttl / 3.0);
      var rest;
      rest, r := LoseUntilExpiry(c, s2, i, k, n);
      RunCons(c, s1, renew, rest);
      RunCons(c, s, Advance(tick), [renew] + rest);
      actions := [Advance(tick)] + ([renew] + rest);
    }
  }

  /** The reply takes as long as the key lives. */
  lemma LateReply(c: Config, s: State, i: ElectorId, k: ElectorId) returns (actions: seq<Action>, r: State)
    requires Sensible(c) && c.reply >= c.ttl && i != k && Unlocked(s, i) && Unlocked(s, k)
    requires !Live(s.key, s.now) && AllQuietBut(s, i, None)
    ensures Run(c, s, actions) == Some(r) && TwoLeaders(r, i, k)
  {
    var to := s.now + c.ttl;
    var s1 := Step(c, s, SetNX(i)).value;
    WaitForReply(c, s, i, to);
    var s2 := s1.(now := to);
    var s3 := TakeOver(c, s2, k);
    r := Step(c, s3, Reply(i)).value;
    var takeOver := [SetNX(k), Reply(k)];
    RunMore(c, s2, takeOver, Reply(i));
    RunCons(c, s1, Advance(to), takeOver + [Reply(i)]);
    RunCons(c, s, SetNX(i), [Advance(to)] + (takeOver + [Reply(i)]));
    actions := [SetNX(i)] + ([Advance(to)] + (takeOver + [Reply(i)]));
  }

  lemma {:induction false} RunMore(c: Config, s: State, actions: seq<Action>, a: Action)
    ensures Run(c, s, actions + [a]) == match Run(c, s, actions) case None => None case Some(r) => Step(c, r, a)
  {
    assert (actions + [a])[..|actions|] == actions;
  }

  lemma WaitForReply(c: Config, s: State, i: ElectorId, to: real)
    requires Unlocked(s, i) && !Live(s.key, s.now) && AllQuietBut(s, i, None) && s.now <= to <= s.now + c.reply
    ensures var s1 := Step(c, s, SetNX(i)).value; Step(c, s1, Advance(to)) == Some(s1.(now := to))
  {
    var s1 := Step(c, s, SetNX(i)).value;
    forall x | x in s1.electors
      ensures ElectorInTime(c, s1.electors[x], to)
    {
      assert QuietBut(s.electors[x], None);
    }
  }

  /** The reply comes before the key expires, as late as it may. */
  lemma SlowReply(c: Config, s: State, i: ElectorId, k: ElectorId) returns (actions: seq<Action>, r: State)
    requires Sensible(c) && !Tolerable(c) && c.reply < c.ttl && i != k && Unlocked(s, i) && Unlocked(s, k)
    requires !Live(s.key, s.now) && AllQuietBut(s, i, None)
    ensures Run(c, s, actions) == Some(r) && TwoLeaders(r, i, k)
  {
    var to, n := s.now + c.reply, s.electors[i].next;
    var s1 := Step(c, s, SetNX(i)).value;
    WaitForReply(c, s, i, to);
    var s2 := s1.(now := to);
    var s3 := Step(c, s2, Reply(i)).value;
    forall x | x in s3.electors
      ensures QuietBut(s3.electors[x], if x == i then Some(n) else None)
    {
      assert QuietBut(s.electors[x], None);
    }
    var rest;
    rest, r := LoseUntilExpiry(c, s3, i, k, n);
    RunCons(c, s2, Reply(i), rest);
    RunCons(c, s1, Advance(to), [Reply(i)] + rest);
    RunCons(c, s, SetNX(i), [Advance(to)] + ([Reply(i)] + rest));
    actions := [SetNX(i)] + ([Advance(to)] + ([Reply(i)] + rest));
  }

  /** Otherwise two leaders can follow from every state in which no key is live, two electors are idle and nothing
      is under way. */
  lemma TwoLeadersFrom(c: Config, s: State, i: ElectorId, k: ElectorId) returns (actions: seq<Action>, r: State)
    requires Sensible(c) && !Tolerable(c) && i != k && Unlocked(s, i) && Unlocked(s, k)
    requires !Live(s.key, s.now) && AllQuietBut(s, i, None)
    ensures Run(c, s, actions) == Some(r) && TwoLeaders(r, i, k)
  {
    if c.reply >= c.ttl {
      actions, r := LateReply(c, s, i, k);
    } else {
      actions, r := SlowReply(c, s, i, k);
    }
  }

  /** At most one elector leads in every run exactly if the surroundings stay within that bound. */
  lemma SafeExactly(c: Config)
    requires Sensible(c)
    ensures (forall actions, s :: Reaches(c, actions, s) ==> AtMostOne(s)) <==> Tolerable(c)
  {
    if Tolerable(c) {
      forall actions, s | Reaches(c, actions, s)
        ensures AtMostOne(s)
      {
        AtMostOneLeader(c, actions, s);
      }
    } else {
      var s1 := Step(c, Initial(), Join(0)).value;
      var s2 := Step(c, s1, Join(1)).value;
      var rest, r := TwoLeadersFrom(c, s2, 0, 1);
      RunCons(c, s1, Join(1), rest);
      RunCons(c, Initial(), Join(0), [Join(1)] + rest);
      assert Reaches(c, [Join(0)] + ([Join(1)] + rest), r) && !AtMostOne(r);
    }
  }

  /** Whatever the bounds: once a leader's release script has run, another elector can take over while the first
      still has its flag set. */
  lemma FlagOutlivesKey(c: Config, s: State, i: ElectorId, k: ElectorId) returns (r: State)
    requires Unlocked(s, i) && Unlocked(s, k) && i != k && s.electors[i].isLeader && Owns(s.key, s.now, i)
    ensures Run(c, s, [BeginRelease(i, true)] + [SetNX(k), Reply(k)]) == Some(r)
    ensures i in r.electors && k in r.electors && r.electors[i].isLeader && r.electors[k].isLeader
  {
    var s1 := Step(c, s, BeginRelease(i, true)).value;
    r := TakeOver(c, s1, k);
    RunCons(c, s, BeginRelease(i, true), [SetNX(k), Reply(k)]);
  }

  // ---------- single steps ----------

  /** SET NX takes effect exactly where no key is live; then the key is the elector's for the time to live. */
  lemma SetNXExactly(c: Config, now: real, key: Option<Entry>, i: ElectorId, e: Elector)
    ensures var (f, k, ok) := SetNXOn(c, now, key, i, e);
            && (ok <==> key.None? || key.value.expires <= now)
            && (ok ==> k == Some(Entry(i, now + c.ttl)) && f == e.(pending := Some(now)))
            && (!ok ==> k == key && f == e)
  {
  }

  /** A renewer acts only once its ticker has fired and while it is not cancelled. If it acts within a third of the time
      to live, the next tick is a third after the last one; if it is later, ticks in between are missed. */
  lemma RenewsAtTicks(c: Config, s: State, i: ElectorId, j: RenewerId, nextTick: real)
    requires c.ttl > 0.0 && Step(c, s, Renew(i, j, nextTick)).Some?
    ensures i in s.electors && j in s.electors[i].renewers
    ensures var r := s.electors[i].renewers[j];
            && !r.cancelled && r.tick <= s.now
            && (s.now - r.tick < c.ttl / 3.0 ==> nextTick - r.tick == c.ttl / 3.0)
            && (s.now - r.tick >= c.ttl / 3.0 ==> r.tick + c.ttl / 3.0 <= nextTick <= s.now + c.ttl / 3.0)
  {
  }

  /** At a tick an elector that owns the live key sets it to the full time to live, and nothing else of its own but the
      next tick changes; one that does not own it leaves the key alone, leads no more, and its renewer ends. */
  lemma RenewExactly(c: Config, s: State, i: ElectorId, j: RenewerId, nextTick: real)
    requires Step(c, s, Renew(i, j, nextTick)).Some?
    ensures i in s.electors && j in s.electors[i].renewers
    ensures var r, e := Step(c, s, Renew(i, j, nextTick)).value, s.electors[i];
            if s.key.Some? && s.now < s.key.value.expires && s.key.value.owner == i
            then r == s.(key := Some(Entry(i, s.now + c.ttl)),
                         electors := s.electors[i := e.(renewers := e.renewers[j := Renewer(nextTick, false, 0)])])
            else r == s.(electors := s.electors[i := e.(isLeader := false, renewers := e.renewers - {j})])
  {
  }

  /** An Acquire whose reply is an error ends without leadership gained or lost. */
  lemma ReplyLostEnds(c: Config, s: State, i: ElectorId)
    requires i in s.electors && s.electors[i].pending.Some? && !s.electors[i].releasing
    ensures var r := Step(c, s, ReplyLost(i));
            r == Some(s.(electors := s.electors[i := s.electors[i].(pending := None)])) && Unlocked(r.value, i)
  {
  }

  /** While its flag is set, unless it is releasing, an elector has a renewer running. */
  predicate FlagOk(e: Elector) {
    e.isLeader && !e.releasing ==>
      e.current.Some? && e.current.value in e.renewers && !e.renewers[e.current.value].cancelled
  }

  ghost predicate FlagInv(s: State) {
    forall i :: i in s.electors ==> FlagOk(s.electors[i])
  }

  lemma FlagStep(c: Config, s: State, a: Action)
    requires FlagInv(s) && Step(c, s, a).Some?
    ensures FlagInv(Step(c, s, a).value)
  {
  }

  lemma {:induction false} FlagRun(c: Config, actions: seq<Action>, s: State)
    requires Run(c, Initial(), actions) == Some(s)
    ensures FlagInv(s)
  {
    if actions != [] {
      var p := Run(c, Initial(), actions[..|actions| - 1]).value;
      FlagRun(c, actions[..|actions| - 1], p);
      FlagStep(c, p, actions[|actions| - 1]);
    }
  }

  /** In every run, whatever the timing, an elector whose flag is set and that is not inside Release has a renewer that
      will act at its next tick. */
  lemma {:induction false} FlagHasRenewer(c: Config, actions: seq<Action>, s: State, i: ElectorId)
    requires Run(c, Initial(), actions) == Some(s) && i in s.electors
    ensures FlagOk(s.electors[i])
  {
    FlagRun(c, actions, s);
  }

  /** A GET that fails at a tick ends the renewer and the leadership, and leaves the key alone. */
  lemma ErrorStepsDown(c: Config, s: State, i: ElectorId, j: RenewerId)
    requires Ready(s, i, j)
    ensures var r := Step(c, s, RenewError(i, j));
            && r.Some? && r.value.key == s.key && i in r.value.electors
            && !r.value.electors[i].isLeader && j !in r.value.electors[i].renewers
            && r.value.electors[i].current == s.electors[i].current
  {
  }

  /** Once Release has returned, the elector does not lead and may acquire again. */
  lemma ReleaseEnds(c: Config, s: State, i: ElectorId)
    requires i in s.electors && s.electors[i].releasing && s.electors[i].pending.None?
    ensures var r := Step(c, s, EndRelease(i));
            r.Some? && Unlocked(r.value, i) && !r.value.electors[i].isLeader && r.value.key == s.key
  {
  }

  /** No elector is created twice. */
  lemma JoinsOnce(c: Config, s: State, i: ElectorId)
    ensures Step(c, s, Join(i)).Some? <==> i !in s.electors
  {
  }

  /** A cancelled renewer whose ticker fires before it sees the cancellation deposes its elector, also if that has
      become leader again since and owns the key; one that sees the cancellation first changes nothing else. */
  lemma StaleRenewerDeposes(c: Config, s: State, i: ElectorId, j: RenewerId)
    requires i in s.electors && j in s.electors[i].renewers && s.electors[i].renewers[j].cancelled
    ensures var e := s.electors[i];
            && Step(c, s, StaleExit(i, j, true))
               == Some(s.(electors := s.electors[i := e.(isLeader := false, renewers := e.renewers - {j})]))
            && Step(c, s, StaleExit(i, j, false))
               == Some(s.(electors := s.electors[i := e.(renewers := e.renewers - {j})]))
  {
  }

  /** That happens in a run: released and acquired again, the elector owns the key but no longer leads. */
  lemma OwnerWithoutFlag(c: Config, s: State, i: ElectorId, j: RenewerId) returns (r: State)
    requires c.ttl > 0.0 && Unlocked(s, i) && s.electors[i].current == Some(j) && j in s.electors[i].renewers
    requires j < s.electors[i].next && Owns(s.key, s.now, i)
    ensures Run(c, s, [BeginRelease(i, true)] + ([EndRelease(i)] + ([SetNX(i), Reply(i)] + [StaleExit(i, j, true)])))
         == Some(r)
    ensures i in r.electors && Owns(r.key, r.now, i) && !r.electors[i].isLeader && r.electors[i].current.Some?
  {
    var s1 := Step(c, s, BeginRelease(i, true)).value;
    var s2 := Step(c, s1, EndRelease(i)).value;
    var s3 := TakeOver(c, s2, i);
    var acquired, stale := [SetNX(i), Reply(i)], StaleExit(i, j, true);
    Reacquired(c, s2, i);
    RunMore(c, s2, acquired, stale);
    r := Step(c, s3, stale).value;
    RunCons(c, s1, EndRelease(i), acquired + [stale]);
    RunCons(c, s, BeginRelease(i, true), [EndRelease(i)] + (acquired + [stale]));
  }

  lemma {:induction false} Reacquired(c: Config, s: State, k: ElectorId)
    requires c.ttl > 0.0 && Unlocked(s, k) && !Live(s.key, s.now)
    ensures var e := s.electors[k];
            Run(c, s, [SetNX(k), Reply(k)])
            == Some(s.(key := Some(Entry(k, s.now + c.ttl)), electors := s.electors[k := ReplyOn(c, s.now, e)]))
  {
    var s1 := Step(c, s, SetNX(k)).value;
    var r := Step(c, s1, Reply(k)).value;
    RunCons(c, s1, Reply(k), []);
    RunCons(c, s, SetNX(k), [Reply(k)] + []);
    assert [SetNX(k)] + ([Reply(k)] + []) == [SetNX(k), Reply(k)];
    assert r.electors == s.electors[k := ReplyOn(c, s.now, s.electors[k])];
  }

  // ---------- the program's objects ----------

  /** The Redis commands used, on one key and Redis's own clock. */
  class Redis {
    var now: real
    var key: Option<Entry>

    method SetNX(owner: ElectorId, ttl: real) returns (ok: bool)
      modifies `key
      ensures ok <==> !Live(old(key), now)
      ensures key == if ok then Some(Entry(owner, now + ttl)) else old(key)
    {
      ok := key.None? || now >= key.value.expires;
      if ok {
        key := Some(Entry(owner, now + ttl));
      }
    }

    method Get() returns (owner: Option<ElectorId>)
      ensures owner == if Live(key, now) then Some(key.value.owner) else None
    {
      owner := if key.Some? && now < key.value.expires then Some(key.value.owner) else None;
    }

    method Expire(ttl: real)
      modifies `key
      ensures key == if Live(old(key), now) then Some(old(key).value.(expires := now + ttl)) else old(key)
    {
      if key.Some? && now < key.value.expires {
        key := Some(key.value.(expires := now + ttl));
      }
    }

    /** The release script: GET and DEL in one step. */
    method DeleteIfOwner(owner: ElectorId)
      modifies `key
      ensures key == if Owns(old(key), now, owner) then None else old(key)
    {
      var val := Get();
      if val == Some(owner) {
        key := None;
      }
    }
  }

  class RedisLeaderElector {
    const c: Config
    const ownerId: ElectorId
    var isLeader: bool
    var renewers: map<RenewerId, Renewer>
    var next: RenewerId
    var current: Option<RenewerId>
    var pending: Option<real>
    var releasing: bool

    constructor (config: Config, id: ElectorId)
      ensures c == config && ownerId == id && View() == NEW_ELECTOR
    {
      c, ownerId := config, id;
      isLeader, renewers, next, current, pending, releasing := false, map[], 0, None, None, false;
    }

    function View(): Elector
      reads this
    {
      Elector(isLeader, renewers, next, current, pending, releasing)
    }

    /** Acquire up to the moment SET NX takes effect; on success its reply is still to come. */
    method BeginAcquire(redis: Redis) returns (ok: bool)
      modifies this, redis`key
      ensures (View(), redis.key, ok) == SetNXOn(c, redis.now, old(redis.key), ownerId, old(View()))
    {
      ok := redis.SetNX(ownerId, c.ttl);
      if ok {
        pending := Some(redis.now);
      }
    }

    /** The rest of a successful Acquire, when the reply is there. */
    method EndAcquire(redis: Redis)
      modifies this
      ensures View() == ReplyOn(c, redis.now, old(View()))
    {
      isLeader, pending := true, None;
      renewers := renewers[next := Renewer(redis.now + c.ttl / 3.0, false, 0)];
      current := Some(next);
      next := next + 1;
    }

    /** What renewer j does at a tick, taken as one step. `replied` tells whether GET was answered, `expired` whether
        EXPIRE took effect; the program looks at the first only. */
    method RenewTick(redis: Redis, j: RenewerId, nextTick: real, replied: bool, expired: bool)
      requires j in renewers
      modifies `isLeader, `renewers, redis`key
      ensures (View(), redis.key)
           == if replied then RenewOn(c, redis.now, old(redis.key), ownerId, old(View()), j, nextTick, expired)
              else (Lost(old(View()), j), old(redis.key))
    {
      var val := redis.Get();
      if !replied || val != Some(ownerId) {
        isLeader := false;
        renewers := renewers - {j};
        return;
      }
      if expired {
        redis.Expire(c.ttl);
      }
      renewers := renewers[j := renewers[j].(tick := nextTick, lost := if expired then 0 else renewers[j].lost + 1)];
    }

    /** Release up to the moment the script takes effect. */
    method BeginRelease(redis: Redis)
      modifies `renewers, `releasing, redis`key
      ensures (View(), redis.key) == ReleaseOn(redis.now, old(redis.key), ownerId, old(View()), true)
    {
      if current.Some? && current.value in renewers {
        renewers := renewers[current.value := renewers[current.value].(cancelled := true)];
      }
      redis.DeleteIfOwner(ownerId);
      releasing := true;
    }

    /** The rest of Release, when the script's reply is there. */
    method EndRelease()
      modifies `isLeader, `releasing
      ensures View() == old(View()).(isLeader := false, releasing := false)
    {
      isLeader, releasing := false, false;
    }
  }
}
