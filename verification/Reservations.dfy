/** The account reservation ledger with its cached availability list.
    Quotas are fixed; each exported call is one step. */
module Reservations {
  import opened Options

  type AccountId = nat

  /** Three amounts at once: processors, accelerators, memory. */
  datatype Amounts = Amounts(cpu: int, gpu: int, ram: int)

  datatype Account = Account(id: AccountId, quota: Amounts, region: string, kind: string, cost: real, uptime: real)

  datatype Meta = Meta(account: Account, available: Amounts)

  datatype Requirements = Requirements(amounts: Amounts, region: string, kind: string, maxCost: real, minUptime: real)

  datatype Cache = Cache(metas: seq<Meta>, expire: real)

  /** The store's accounts with the ledger and the cache. */
  datatype State = State(db: seq<Account>, reserved: map<AccountId, Amounts>, cache: Option<Cache>)

  datatype ReserveError = InsufficientCpu | InsufficientGpu | InsufficientRam

  type Score = (Meta, Requirements) -> real

  const ZERO := Amounts(0, 0, 0)

  function Max0(a: int): int { if a < 0 then 0 else a }

  function Add(a: Amounts, b: Amounts): Amounts { Amounts(a.cpu + b.cpu, a.gpu + b.gpu, a.ram + b.ram) }

  /** Differences, none below zero. */
  function Less(a: Amounts, b: Amounts): Amounts {
    Amounts(Max0(a.cpu - b.cpu), Max0(a.gpu - b.gpu), Max0(a.ram - b.ram))
  }

  predicate NonNeg(a: Amounts) { a.cpu >= 0 && a.gpu >= 0 && a.ram >= 0 }

  predicate AtMost(a: Amounts, b: Amounts) { a.cpu <= b.cpu && a.gpu <= b.gpu && a.ram <= b.ram }

  function Current(reserved: map<AccountId, Amounts>, id: AccountId): Amounts {
    if id in reserved then reserved[id] else ZERO
  }

  /** The quota of the first account with this id, or nothing of anything. */
  function Quota(db: seq<Account>, id: AccountId): Amounts {
    if db == [] then ZERO else if db[0].id == id then db[0].quota else Quota(db[1..], id)
  }

  function MetaOf(a: Account, reserved: map<AccountId, Amounts>): Meta {
    Meta(a, Less(a.quota, Current(reserved, a.id)))
  }

  function Fetch(db: seq<Account>, reserved: map<AccountId, Amounts>): (metas: seq<Meta>)
    ensures |metas| == |db| && forall i :: 0 <= i < |db| ==> metas[i] == MetaOf(db[i], reserved)
  {
    if db == [] then [] else [MetaOf(db[0], reserved)] + Fetch(db[1..], reserved)
  }

  /** The cached list while it is live, or a fresh one that is then cached. */
  function ReadResources(s: State, now: real, ttl: real): (State, seq<Meta>) {
    if s.cache.Some? && now < s.cache.value.expire then (s, s.cache.value.metas)
    else
      var metas := Fetch(s.db, s.reserved);
      (s.(cache := Some(Cache(metas, now + ttl))), metas)
  }

  predicate Fits(m: Meta, req: Requirements) {
    && !(req.amounts.cpu > 0 && m.available.cpu < req.amounts.cpu)
    && !(req.amounts.gpu > 0 && m.available.gpu < req.amounts.gpu)
    && !(req.amounts.ram > 0 && m.available.ram < req.amounts.ram)
    && !(req.region != "" && m.account.region != req.region)
    && !(req.kind != "" && m.account.kind != req.kind)
    && !(req.maxCost > 0.0 && m.account.cost > 0.0 && m.account.cost > req.maxCost)
    && !(req.minUptime > 0.0 && m.account.uptime < req.minUptime)
  }

  /** A read within the time to live of the last fetch changes nothing and gives that; any other fetches. */
  lemma ReadExactly(s: State, now: real, ttl: real, later: real, ttl2: real)
    requires s.cache.None?
    ensures var (r, metas) := ReadResources(s, now, ttl);
            && metas == Fetch(s.db, s.reserved) && r.db == s.db && r.reserved == s.reserved
            && (later < now + ttl ==> ReadResources(r, later, ttl2) == (r, metas))
            && (later >= now + ttl ==>
                  ReadResources(r, later, ttl2) == (r.(cache := Some(Cache(metas, later + ttl2))), metas))
  {
  }

  /** An account fits exactly if each amount asked for is available, and its region, kind, price and uptime are as
      asked, where they are; an account without a price has none too high. */
  lemma FitsExactly(m: Meta, req: Requirements)
    ensures Fits(m, req)
        <==> && (req.amounts.cpu <= 0 || req.amounts.cpu <= m.available.cpu)
             && (req.amounts.gpu <= 0 || req.amounts.gpu <= m.available.gpu)
             && (req.amounts.ram <= 0 || req.amounts.ram <= m.available.ram)
             && (req.region == "" || m.account.region == req.region)
             && (req.kind == "" || m.account.kind == req.kind)
             && (req.maxCost <= 0.0 || m.account.cost <= 0.0 || m.account.cost <= req.maxCost)
             && (req.minUptime <= 0.0 || req.minUptime <= m.account.uptime)
  {
  }

  function Reserve(s: State, id: AccountId, a: Amounts): (State, Option<ReserveError>) {
    var total := Add(Current(s.reserved, id), a);
    var quota := Quota(s.db, id);
    if total.cpu > quota.cpu then (s, Some(InsufficientCpu))
    else if total.gpu > quota.gpu then (s, Some(InsufficientGpu))
    else if total.ram > quota.ram then (s, Some(InsufficientRam))
    else (s.(reserved := s.reserved[id := total], cache := None), None)
  }

  function Release(s: State, id: AccountId, a: Amounts): State {
    var left := Less(Current(s.reserved, id), a);
    s.(reserved := if left == ZERO then s.reserved - {id} else s.reserved[id := left], cache := None)
  }

  datatype Action = Read(now: real, ttl: real) | Book(id: AccountId, a: Amounts) | GiveBack(id: AccountId, a: Amounts)

  /** Bookings are never negative; neither are releases. */
  ghost predicate Honest(a: Action) {
    !a.Read? ==> NonNeg(a.a)
  }

  function Step(s: State, a: Action): State {
    match a
    case Read(now, ttl) => ReadResources(s, now, ttl).0
    case Book(id, x) => Reserve(s, id, x).0
    case GiveBack(id, x) => Release(s, id, x)
  }

  function Run(s: State, actions: seq<Action>): State {
    if actions == [] then s else Step(Run(s, actions[..|actions| - 1]), actions[|actions| - 1])
  }

  ghost predicate Sane(db: seq<Account>) {
    && (forall i :: 0 <= i < |db| ==> NonNeg(db[i].quota))
    && (forall i, j :: 0 <= i < j < |db| ==> db[i].id != db[j].id)
  }

  ghost predicate LedgerOk(s: State, id: AccountId) {
    NonNeg(Current(s.reserved, id)) && AtMost(Current(s.reserved, id), Quota(s.db, id))
  }

  /** No account is overbooked, and what is cached is what a fresh fetch would give. */
  ghost predicate Inv(s: State) {
    && Sane(s.db)
    && (forall id :: LedgerOk(s, id))
    && (s.cache.Some? ==> s.cache.value.metas == Fetch(s.db, s.reserved))
  }

  lemma {:induction false} QuotaNonNeg(db: seq<Account>, id: AccountId)
    requires Sane(db)
    ensures NonNeg(Quota(db, id))
  {
    if db != [] && db[0].id != id {
      QuotaNonNeg(db[1..], id);
    }
  }

  lemma {:induction false} QuotaAt(db: seq<Account>, i: nat)
    requires Sane(db) && i < |db|
    ensures Quota(db, db[i].id) == db[i].quota
  {
    if i > 0 {
      assert db[0].id != db[i].id;
      QuotaAt(db[1..], i - 1);
    }
  }

  lemma InvStep(s: State, a: Action)
    requires Inv(s) && Honest(a)
    ensures Inv(Step(s, a)) && Step(s, a).db == s.db
  {
    forall id
      ensures LedgerOk(Step(s, a), id)
    {
      assert LedgerOk(s, id);
    }
  }

  lemma {:induction false} InvRun(db: seq<Account>, actions: seq<Action>)
    requires Sane(db) && forall i :: 0 <= i < |actions| ==> Honest(actions[i])
    ensures Inv(Run(State(db, map[], None), actions)) && Run(State(db, map[], None), actions).db == db
  {
    if actions != [] {
      InvRun(db, actions[..|actions| - 1]);
      InvStep(Run(State(db, map[], None), actions[..|actions| - 1]), actions[|actions| - 1]);
    } else {
      forall id
        ensures LedgerOk(State(db, map[], None), id)
      {
        QuotaNonNeg(db, id);
      }
    }
  }

  /** In every run no account is overbooked or negative. */
  lemma {:induction false} NeverOverbooked(db: seq<Account>, actions: seq<Action>, id: AccountId)
    requires Sane(db) && forall i :: 0 <= i < |actions| ==> Honest(actions[i])
    ensures var s := Run(State(db, map[], None), actions);
            NonNeg(Current(s.reserved, id)) && AtMost(Current(s.reserved, id), Quota(db, id))
  {
    InvRun(db, actions);
    assert LedgerOk(Run(State(db, map[], None), actions), id);
  }

  datatype Part = Cpu | Gpu | Ram

  function Of(a: Amounts, part: Part): int {
    match part
    case Cpu => a.cpu
    case Gpu => a.gpu
    case Ram => a.ram
  }

  function Reserved(s: State, id: AccountId, part: Part): int { Of(Current(s.reserved, id), part) }

  /** What an action reserves for the account: what is asked for, if with it all three stay within the quota. */
  function Reserves(s: State, a: Action, id: AccountId, part: Part): int {
    if a.Book? && a.id == id && AtMost(Add(Current(s.reserved, id), a.a), Quota(s.db, id)) then Of(a.a, part) else 0
  }

  /** What an action gives back for the account: at most what is reserved. */
  function Returns(s: State, a: Action, id: AccountId, part: Part): int {
    if !a.GiveBack? || a.id != id then 0
    else if Of(a.a, part) > Reserved(s, id, part) then Reserved(s, id, part)
    else Of(a.a, part)
  }

  function AllReserves(s: State, actions: seq<Action>, id: AccountId, part: Part): int {
    if actions == [] then 0
    else
      var n := |actions| - 1;
      AllReserves(s, actions[..n], id, part) + Reserves(Run(s, actions[..n]), actions[n], id, part)
  }

  function AllReturns(s: State, actions: seq<Action>, id: AccountId, part: Part): int {
    if actions == [] then 0
    else
      var n := |actions| - 1;
      AllReturns(s, actions[..n], id, part) + Returns(Run(s, actions[..n]), actions[n], id, part)
  }

  lemma ConservedStep(s: State, a: Action, id: AccountId, part: Part)
    ensures Reserved(Step(s, a), id, part) + Returns(s, a, id, part) == Reserved(s, id, part) + Reserves(s, a, id, part)
  {
  }

  /** In every run, also with dishonest amounts, an account's ledger holds what was reserved less what was returned. */
  lemma {:induction false} ReservedIsConserved(db: seq<Account>, actions: seq<Action>, id: AccountId, part: Part)
    ensures var s := State(db, map[], None);
            Reserved(Run(s, actions), id, part)
            == AllReserves(s, actions, id, part) - AllReturns(s, actions, id, part)
  {
    if actions != [] {
      var n := |actions| - 1;
      var s := State(db, map[], None);
      ReservedIsConserved(db, actions[..n], id, part);
      ConservedStep(Run(s, actions[..n]), actions[n], id, part);
    }
  }

  /** In every run, reading through the cache gives at any time exactly what the ledger says. */
  lemma {:induction false} CacheIsFresh(db: seq<Account>, actions: seq<Action>, now: real, ttl: real)
    requires Sane(db) && forall i :: 0 <= i < |actions| ==> Honest(actions[i])
    ensures var s := Run(State(db, map[], None), actions);
            ReadResources(s, now, ttl).1 == Fetch(db, s.reserved)
  {
    InvRun(db, actions);
  }

  /** What reserving does to the list: this account's availability falls by exactly the amounts, no other's changes. */
  ghost predicate FallsBy(db: seq<Account>, before: map<AccountId, Amounts>, after: map<AccountId, Amounts>, i: nat,
                          a: Amounts)
    requires i < |db|
  {
    && Add(Fetch(db, after)[i].available, a) == Fetch(db, before)[i].available
    && forall k :: 0 <= k < |db| && k != i ==> Fetch(db, after)[k] == Fetch(db, before)[k]
  }

  lemma AnyReserved(s: State, i: nat, a: Amounts)
    requires Inv(s) && NonNeg(a) && i < |s.db| && AtMost(Add(Current(s.reserved, s.db[i].id), a), s.db[i].quota)
    ensures var (t, err) := Reserve(s, s.db[i].id, a);
            err == None && t.reserved == s.reserved[s.db[i].id := Add(Current(s.reserved, s.db[i].id), a)]
  {
    QuotaAt(s.db, i);
  }

  /** An amount that was checked against what is left, or not asked for, is within the quota. */
  lemma FitIsWithin(s: State, i: nat, req: Requirements)
    requires Inv(s) && NonNeg(req.amounts) && i < |s.db| && Fits(MetaOf(s.db[i], s.reserved), req)
    ensures AtMost(Add(Current(s.reserved, s.db[i].id), req.amounts), s.db[i].quota)
  {
    assert LedgerOk(s, s.db[i].id);
    QuotaAt(s.db, i);
  }

  lemma {:induction false} OtherAvailable(db: seq<Account>, before: map<AccountId, Amounts>,
                                          after: map<AccountId, Amounts>, k: nat)
    requires k < |db| && Current(after, db[k].id) == Current(before, db[k].id)
    ensures Fetch(db, after)[k] == Fetch(db, before)[k]
  {
  }

  lemma {:induction false} OwnAvailable(db: seq<Account>, before: map<AccountId, Amounts>,
                                        after: map<AccountId, Amounts>, i: nat, a: Amounts)
    requires i < |db| && NonNeg(a) && Current(after, db[i].id) == Add(Current(before, db[i].id), a)
    requires AtMost(Current(after, db[i].id), db[i].quota)
    ensures Add(Fetch(db, after)[i].available, a) == Fetch(db, before)[i].available
  {
  }

  lemma Lowered(s: State, reserved: map<AccountId, Amounts>, i: nat, a: Amounts)
    requires Inv(s) && NonNeg(a) && i < |s.db| && AtMost(Add(Current(s.reserved, s.db[i].id), a), s.db[i].quota)
    requires reserved == s.reserved[s.db[i].id := Add(Current(s.reserved, s.db[i].id), a)]
    ensures FallsBy(s.db, s.reserved, reserved, i, a)
  {
    OwnAvailable(s.db, s.reserved, reserved, i, a);
    forall k | 0 <= k < |s.db| && k != i
      ensures Fetch(s.db, reserved)[k] == Fetch(s.db, s.reserved)[k]
    {
      assert s.db[k].id != s.db[i].id;
      OtherAvailable(s.db, s.reserved, reserved, k);
    }
  }

  lemma ReserveLowers(s: State, i: nat, req: Requirements)
    requires Inv(s) && NonNeg(req.amounts) && i < |s.db| && Fits(MetaOf(s.db[i], s.reserved), req)
    ensures var (t, err) := Reserve(s, s.db[i].id, req.amounts);
            err == None && FallsBy(s.db, s.reserved, t.reserved, i, req.amounts)
  {
    FitIsWithin(s, i, req);
    AnyReserved(s, i, req.amounts);
    Lowered(s, Reserve(s, s.db[i].id, req.amounts).0.reserved, i, req.amounts);
  }

  /** In every run, any listed account that fits can be reserved at once with those amounts: its availability falls
      by exactly them, and no other account's changes. */
  lemma FitCanBeReserved(db: seq<Account>, actions: seq<Action>, now: real, ttl: real, m: Meta, req: Requirements)
    returns (i: nat)
    requires Sane(db) && forall k :: 0 <= k < |actions| ==> Honest(actions[k])
    requires NonNeg(req.amounts) && Fits(m, req)
    requires m in ReadResources(Run(State(db, map[], None), actions), now, ttl).1
    ensures var s := ReadResources(Run(State(db, map[], None), actions), now, ttl).0;
            var (t, err) := Reserve(s, m.account.id, req.amounts);
            err == None && i < |db| && db[i] == m.account && FallsBy(db, s.reserved, t.reserved, i, req.amounts)
  {
    InvRun(db, actions);
    CacheIsFresh(db, actions, now, ttl);
    var s := Run(State(db, map[], None), actions);
    i :| 0 <= i < |db| && Fetch(db, s.reserved)[i] == m;
    InvStep(s, Read(now, ttl));
    ReserveLowers(ReadResources(s, now, ttl).0, i, req);
  }

  /** Releasing what was just reserved restores the ledger. */
  lemma ReleaseUndoesReserve(s: State, id: AccountId, a: Amounts)
    requires Inv(s) && NonNeg(a) && Reserve(s, id, a).1 == None
    ensures var t := Release(Reserve(s, id, a).0, id, a);
            && (forall k :: Current(t.reserved, k) == Current(s.reserved, k))
            && Fetch(t.db, t.reserved) == Fetch(s.db, s.reserved)
  {
    assert LedgerOk(s, id);
    var t := Release(Reserve(s, id, a).0, id, a);
    forall k
      ensures Current(t.reserved, k) == Current(s.reserved, k)
    {
    }
    forall i | 0 <= i < |s.db|
      ensures Fetch(t.db, t.reserved)[i] == Fetch(s.db, s.reserved)[i]
    {
      assert Current(t.reserved, s.db[i].id) == Current(s.reserved, s.db[i].id);
    }
  }

  // ---------- matching ----------

  /** Candidate i comes before candidate j: it scores higher, or the same and is listed earlier. */
  ghost predicate Before(metas: seq<Meta>, req: Requirements, score: Score, i: nat, j: nat)
    requires i < |metas| && j < |metas|
  {
    score(metas[i], req) > score(metas[j], req) || (score(metas[i], req) == score(metas[j], req) && i < j)
  }

  /** Positions of the list, best first. Each of them occurs once, since none comes before itself. */
  ghost predicate Ranked(metas: seq<Meta>, req: Requirements, score: Score, pos: seq<nat>) {
    && (forall a :: 0 <= a < |pos| ==> pos[a] < |metas|)
    && forall a, b :: 0 <= a < b < |pos| ==> Before(metas, req, score, pos[a], pos[b])
  }

  /** The entries of the list at these positions. */
  ghost predicate Picks(metas: seq<Meta>, ms: seq<Meta>, pos: seq<nat>) {
    |ms| == |pos| && forall a :: 0 <= a < |pos| ==> pos[a] < |metas| && ms[a] == metas[pos[a]]
  }

  lemma RankedInsert(metas: seq<Meta>, req: Requirements, score: Score, pos: seq<nat>, p: nat, i: nat)
    requires Ranked(metas, req, score, pos) && i <= |pos| && p < |metas|
    requires forall k :: 0 <= k < i ==> Before(metas, req, score, pos[k], p)
    requires forall k :: i <= k < |pos| ==> Before(metas, req, score, p, pos[k])
    ensures Ranked(metas, req, score, pos[..i] + [p] + pos[i..])
  {
    var r := pos[..i] + [p] + pos[i..];
    forall a, b | 0 <= a < b < |r|
      ensures r[a] < |metas| && r[b] < |metas| && Before(metas, req, score, r[a], r[b])
    {
      assert r[a] == if a < i then pos[a] else if a == i then p else pos[a - 1];
      assert r[b] == if b < i then pos[b] else if b == i then p else pos[b - 1];
    }
  }

  lemma InsertedMembers(pos: seq<nat>, p: nat, i: nat)
    requires i <= |pos|
    ensures forall x :: x in pos[..i] + [p] + pos[i..] <==> x in pos || x == p
  {
    assert pos == pos[..i] + pos[i..];
  }

  /** Where the scores from i on are lower than that of p, and the one before is not, p belongs at i. */
  lemma PlaceOf(metas: seq<Meta>, req: Requirements, score: Score, pos: seq<nat>, p: nat, i: nat)
    requires Ranked(metas, req, score, pos) && i <= |pos| && p < |metas| && forall q :: q in pos ==> q < p
    requires i > 0 ==> score(metas[pos[i - 1]], req) >= score(metas[p], req)
    requires forall k :: i <= k < |pos| ==> score(metas[pos[k]], req) < score(metas[p], req)
    ensures forall k :: 0 <= k < i ==> Before(metas, req, score, pos[k], p)
    ensures forall k :: i <= k < |pos| ==> Before(metas, req, score, p, pos[k])
  {
    forall k | 0 <= k < i
      ensures Before(metas, req, score, pos[k], p)
    {
      assert pos[k] in pos;
      assert k < i - 1 ==> Before(metas, req, score, pos[k], pos[i - 1]);
    }
  }

  /** Puts the entry at p behind all that score at least as high, as a stable sort does. */
  method InsertStable(metas: seq<Meta>, req: Requirements, score: Score, ms: seq<Meta>, ghost pos: seq<nat>, p: nat)
    returns (r: seq<Meta>, ghost next: seq<nat>)
    requires Picks(metas, ms, pos) && Ranked(metas, req, score, pos) && p < |metas| && forall q :: q in pos ==> q < p
    ensures Picks(metas, r, next) && Ranked(metas, req, score, next)
    ensures forall q :: q in next <==> q in pos || q == p
  {
    var i := |ms|;
    while i > 0 && score(ms[i - 1], req) < score(metas[p], req)
      invariant 0 <= i <= |ms|
      invariant forall k :: i <= k < |ms| ==> score(ms[k], req) < score(metas[p], req)
    {
      i := i - 1;
    }
    PlaceOf(metas, req, score, pos, p, i);
    RankedInsert(metas, req, score, pos, p, i);
    InsertedMembers(pos, p, i);
    r := ms[..i] + [metas[p]] + ms[i..];
    next := pos[..i] + [p] + pos[i..];
  }

  class ResourceManager {
    const db: seq<Account>
    const ttl: real
    var reserved: map<AccountId, Amounts>
    var cache: Option<Cache>

    constructor (accounts: seq<Account>, seconds: real)
      ensures View() == State(accounts, map[], None) && ttl == seconds
    {
      db, ttl := accounts, seconds;
      reserved, cache := map[], None;
    }

    function View(): State
      reads this
    {
      State(db, reserved, cache)
    }

    method FetchResources() returns (metas: seq<Meta>)
      ensures metas == Fetch(db, reserved)
    {
      metas := [];
      for i := 0 to |db|
        invariant |metas| == i && forall k :: 0 <= k < i ==> metas[k] == MetaOf(db[k], reserved)
      {
        var res := Current(reserved, db[i].id);
        var q := db[i].quota;
        metas := metas + [Meta(db[i], Amounts(Max0(q.cpu - res.cpu), Max0(q.gpu - res.gpu), Max0(q.ram - res.ram)))];
      }
    }

    method GetResources(now: real) returns (metas: seq<Meta>)
      modifies `cache
      ensures (View(), metas) == ReadResources(old(View()), now, ttl)
    {
      if cache.Some? && now < cache.value.expire {
        return cache.value.metas;
      }
      metas := FetchResources();
      cache := Some(Cache(metas, now + ttl));
    }

    /** The listed accounts that fit, each once, best score first and in list order where scores are equal:
        `pos` says at which position of the list each match is. */
    method MatchResourcesAdvanced(req: Requirements, score: Score, now: real)
      returns (matches: seq<Meta>, ghost pos: seq<nat>)
      modifies `cache
      ensures View() == ReadResources(old(View()), now, ttl).0
      ensures var metas := ReadResources(old(View()), now, ttl).1;
              && Picks(metas, matches, pos) && Ranked(metas, req, score, pos)
              && forall p :: p in pos <==> 0 <= p < |metas| && Fits(metas[p], req)
    {
      var metas := GetResources(now);
      matches, pos := [], [];
      for i := 0 to |metas|
        invariant View() == ReadResources(old(View()), now, ttl).0
        invariant Picks(metas, matches, pos) && Ranked(metas, req, score, pos)
        invariant forall p :: p in pos <==> 0 <= p < i && Fits(metas[p], req)
      {
        if Fits(metas[i], req) {
          matches, pos := InsertStable(metas, req, score, matches, pos, i);
        }
      }
    }

    method ReserveResource(id: AccountId, a: Amounts) returns (err: Option<ReserveError>)
      modifies `reserved, `cache
      ensures (View(), err) == Reserve(old(View()), id, a)
    {
      var res := Current(reserved, id);
      var quota := Quota(db, id);
      if res.cpu + a.cpu > quota.cpu {
        return Some(InsufficientCpu);
      }
      if res.gpu + a.gpu > quota.gpu {
        return Some(InsufficientGpu);
      }
      if res.ram + a.ram > quota.ram {
        return Some(InsufficientRam);
      }
      reserved := reserved[id := Amounts(res.cpu + a.cpu, res.gpu + a.gpu, res.ram + a.ram)];
      cache := None;
      return None;
    }

    method ReleaseResource(id: AccountId, a: Amounts)
      modifies `reserved, `cache
      ensures View() == Release(old(View()), id, a)
    {
      var res := Current(reserved, id);
      res := Amounts(Max0(res.cpu - a.cpu), Max0(res.gpu - a.gpu), Max0(res.ram - a.ram));
      if res.cpu == 0 && res.gpu == 0 && res.ram == 0 {
        reserved := reserved - {id};
      } else {
        reserved := reserved[id := res];
      }
      cache := None;
    }
  }
}
