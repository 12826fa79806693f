/** Admission on top of the buckets: the QoS manager's bandwidth check and the gateway's per-service limit. */
module Admission {
  import opened TokenBuckets
  import opened Options

  // ---------- the QoS manager ----------

  datatype Policy = Policy(appliesTo: string, bandwidth: int, soft: bool)

  datatype Decision = Admit | SoftThrottle | Insufficient | NoPolicy

  /** Policies by id, and one bucket and one usage count per target. */
  datatype Manager = Manager(policies: map<string, Policy>, buckets: map<string, Bucket>, usage: map<string, real>)

  /** Tokens per second, and tokens at most: the policy's bandwidth, or one. */
  function Bandwidth(p: Policy): real {
    if p.bandwidth <= 0 then 1.0 else p.bandwidth as real
  }

  /** The bandwidth bucket a policy gives its target. */
  function PolicyBucket(p: Policy, now: real): Bucket {
    Bucket(Bandwidth(p), Bandwidth(p), Bandwidth(p), now)
  }

  /** A new or changed policy starts with a full bucket; its id and target must be named. */
  function WithPolicy(m: Manager, id: string, p: Policy, now: real): Manager {
    if id == "" || p.appliesTo == "" then m
    else m.(policies := m.policies[id := p], buckets := m.buckets[p.appliesTo := PolicyBucket(p, now)])
  }

  function WithoutPolicy(m: Manager, id: string): Manager {
    if id !in m.policies then m
    else m.(policies := m.policies - {id}, buckets := m.buckets - {m.policies[id].appliesTo})
  }

  /** soft is the mode of some policy for the target, or false where there is none. */
  ghost predicate ModeOf(policies: map<string, Policy>, target: string, soft: bool) {
    || (exists id :: id in policies && policies[id].appliesTo == target && policies[id].soft == soft)
    || (!soft && forall id :: id in policies ==> policies[id].appliesTo != target)
  }

  /** Only what the target's bucket pays for is admitted and counted as usage; a soft policy lets the rest through
      as throttled, without counting it. */
  function CheckOn(m: Manager, target: string, required: int, soft: bool, now: real): (Manager, Decision) {
    if target !in m.buckets then (m, NoPolicy)
    else
      var (b, ok) := Take(m.buckets[target], now, required as real);
      var n := m.(buckets := m.buckets[target := b]);
      if ok then (n.(usage := m.usage[target := Used(m.usage, target) + required as real]), Admit)
      else (n, if soft then SoftThrottle else Insufficient)
  }

  /** One tick of the refiller over all buckets. */
  function Refilled(m: Manager, now: real): Manager {
    m.(buckets := map a | a in m.buckets :: Take(m.buckets[a], now, 0.0).0)
  }

  function Used(usage: map<string, real>, a: string): real {
    if a in usage then usage[a] else 0.0
  }

  // ---------- runs of the QoS manager ----------

  /** `soft` is the mode of the policy that the check finds for its target. */
  datatype Event =
    | Define(time: real, id: string, p: Policy)
    | Remove(time: real, id: string)
    | Check(time: real, target: string, required: int, soft: bool)
    | Tick(time: real)

  function Apply(m: Manager, e: Event): (Manager, seq<Decision>) {
    match e
    case Define(now, id, p) => (WithPolicy(m, id, p, now), [])
    case Remove(now, id) => (WithoutPolicy(m, id), [])
    case Check(now, target, required, soft) => var (n, d) := CheckOn(m, target, required, soft, now); (n, [d])
    case Tick(now) => (Refilled(m, now), [])
  }

  function Decisions(m: Manager, events: seq<Event>): seq<Decision>
    decreases |events|
  {
    if events == [] then []
    else
      var (n, ds) := Apply(m, events[0]);
      ds + Decisions(n, events[1..])
  }

  ghost predicate EventsInOrder(from: real, events: seq<Event>)
    decreases |events|
  {
    events != [] ==> from <= events[0].time && EventsInOrder(events[0].time, events[1..])
  }

  function WithoutTickEvents(events: seq<Event>): seq<Event> {
    if events == [] then []
    else (if events[0].Tick? then [] else [events[0]]) + WithoutTickEvents(events[1..])
  }

  ghost predicate AlikeAt(m: Manager, n: Manager, a: string, from: real) {
    (a in m.buckets <==> a in n.buckets) && (a in m.buckets ==> Alike(m.buckets[a], n.buckets[a], from))
  }

  /** Two managers that will decide the same from some time on. */
  ghost predicate AlikeManagers(m: Manager, n: Manager, from: real) {
    m.policies == n.policies && m.usage == n.usage && forall a :: AlikeAt(m, n, a, from)
  }

  lemma PolicyBucketOk(p: Policy, now: real)
    ensures Ok(PolicyBucket(p, now)) && Alike(PolicyBucket(p, now), PolicyBucket(p, now), now)
  {
  }

  lemma AlikeAtCheck(m: Manager, n: Manager, from: real, e: Event, a: string)
    requires AlikeManagers(m, n, from) && e.Check? && from <= e.time
    ensures AlikeAt(Apply(m, e).0, Apply(n, e).0, a, e.time)
    ensures Apply(m, e).1 == Apply(n, e).1 && Apply(m, e).0.usage == Apply(n, e).0.usage
  {
    assert AlikeAt(m, n, a, from) && AlikeAt(m, n, e.target, from);
    if e.target in m.buckets {
      AlikeAfterAsk(m.buckets[e.target], n.buckets[e.target], from, e.time, e.required as real);
    }
  }

  lemma AlikeAtEvent(m: Manager, n: Manager, from: real, e: Event, a: string)
    requires AlikeManagers(m, n, from) && from <= e.time && !e.Tick?
    ensures AlikeAt(Apply(m, e).0, Apply(n, e).0, a, e.time)
  {
    if e.Check? {
      AlikeAtCheck(m, n, from, e, a);
    } else {
      assert AlikeAt(m, n, a, from);
      if e.Define? {
        PolicyBucketOk(e.p, e.time);
      }
    }
  }

  lemma AlikeAfterEvent(m: Manager, n: Manager, from: real, e: Event)
    requires AlikeManagers(m, n, from) && from <= e.time && !e.Tick?
    ensures AlikeManagers(Apply(m, e).0, Apply(n, e).0, e.time) && Apply(m, e).1 == Apply(n, e).1
  {
    if e.Check? {
      AlikeAtCheck(m, n, from, e, e.target);
    }
    forall a
      ensures AlikeAt(Apply(m, e).0, Apply(n, e).0, a, e.time)
    {
      AlikeAtEvent(m, n, from, e, a);
    }
  }

  lemma AlikeAfterTickEvent(m: Manager, n: Manager, from: real, now: real)
    requires AlikeManagers(m, n, from) && from <= now
    ensures AlikeManagers(Refilled(m, now), n, now)
  {
    forall a
      ensures AlikeAt(Refilled(m, now), n, a, now)
    {
      assert AlikeAt(m, n, a, from);
      if a in m.buckets {
        AlikeAfterTick(m.buckets[a], n.buckets[a], from, now);
      }
    }
  }

  lemma {:induction false} AlikeDecisions(m: Manager, n: Manager, from: real, events: seq<Event>)
    requires AlikeManagers(m, n, from) && EventsInOrder(from, events)
    ensures Decisions(m, events) == Decisions(n, WithoutTickEvents(events))
    decreases |events|
  {
    if events != [] {
      var e, rest := events[0], WithoutTickEvents(events[1..]);
      if e.Tick? {
        AlikeAfterTickEvent(m, n, from, e.time);
        AlikeDecisions(Refilled(m, e.time), n, e.time, events[1..]);
        assert [] + rest == rest;
      } else {
        AlikeAfterEvent(m, n, from, e);
        AlikeDecisions(Apply(m, e).0, Apply(n, e).0, e.time, events[1..]);
        assert ([e] + rest)[1..] == rest;
      }
    }
  }

  const NEW_MANAGER := Manager(map[], map[], map[])

  /** Over any run of policies set and removed and checks of any targets, ticks of the refiller change no decision. */
  lemma {:induction false} TicksChangeNoDecision(events: seq<Event>, from: real)
    requires EventsInOrder(from, events)
    ensures Decisions(NEW_MANAGER, events) == Decisions(NEW_MANAGER, WithoutTickEvents(events))
  {
    AlikeDecisions(NEW_MANAGER, NEW_MANAGER, from, events);
  }

  // ---------- one target in such a run ----------

  function AfterEvents(m: Manager, events: seq<Event>): Manager
    decreases |events|
  {
    if events == [] then m else AfterEvents(Apply(m, events[0]).0, events[1..])
  }

  /** The bandwidth admitted for one target, net of what was given back. */
  function AdmittedFor(m: Manager, events: seq<Event>, target: string): real
    decreases |events|
  {
    if events == [] then 0.0
    else
      var (n, ds) := Apply(m, events[0]);
      (if ds == [Admit] && events[0].target == target then events[0].required as real else 0.0)
      + AdmittedFor(n, events[1..], target)
  }

  /** The event does not give the target another bucket, or take it away. */
  predicate KeepsBucket(m: Manager, e: Event, target: string) {
    match e
    case Define(_, id, p) => id == "" || p.appliesTo != target || target == ""
    case Remove(_, id) => id in m.policies ==> m.policies[id].appliesTo != target
    case Check(_, _, _, _) => true
    case Tick(_) => true
  }

  predicate KeepBucket(m: Manager, events: seq<Event>, target: string)
    decreases |events|
  {
    events != [] ==> KeepsBucket(m, events[0], target) && KeepBucket(Apply(m, events[0]).0, events[1..], target)
  }

  /** The calls that reach the target's bucket. */
  function Calls(events: seq<Event>, target: string): seq<Ask> {
    if events == [] then []
    else
      var e := events[0];
      (if e.Tick? then [Ask(e.time, 0.0, true)]
       else if e.Check? && e.target == target then [Ask(e.time, e.required as real, false)]
       else [])
      + Calls(events[1..], target)
  }

  lemma {:induction false} TargetStep(m: Manager, e: Event, target: string)
    requires target in m.buckets && KeepsBucket(m, e, target)
    ensures var (n, ds) := Apply(m, e);
            && target in n.buckets
            && n.buckets[target] == After(m.buckets[target], Calls([e], target))
            && (ds == [Admit] && e.target == target ==> Take(m.buckets[target], e.time, e.required as real).1)
            && (e.Check? && e.target == target ==>
                  (ds == [Admit] <==> Take(m.buckets[target], e.time, e.required as real).1))
  {
    var calls := Calls([e], target);
    assert Calls([e][1..], target) == [];
    if calls != [] {
      assert calls[1..] == [];
    }
  }

  lemma {:induction false} AfterConcat(b: Bucket, x: seq<Ask>, y: seq<Ask>)
    ensures After(b, x + y) == After(After(b, x), y)
    ensures Admitted(b, x + y) == Admitted(b, x) + Admitted(After(b, x), y)
    decreases |x|
  {
    if x == [] {
      assert x + y == y;
    } else {
      assert (x + y)[1..] == x[1..] + y;
      AfterConcat(Take(b, x[0].time, x[0].amount).0, x[1..], y);
    }
  }

  lemma {:induction false} OneCall(m: Manager, e: Event, target: string)
    requires target in m.buckets && KeepsBucket(m, e, target)
    ensures var ds := Apply(m, e).1;
            Admitted(m.buckets[target], Calls([e], target))
            == if ds == [Admit] && e.target == target then e.required as real else 0.0
  {
    var calls := Calls([e], target);
    assert Calls([e][1..], target) == [];
    if calls != [] {
      assert calls[1..] == [];
    }
  }

  lemma {:induction false} CallsCons(e: Event, rest: seq<Event>, target: string)
    ensures Calls([e] + rest, target) == Calls([e], target) + Calls(rest, target)
  {
    assert ([e] + rest)[1..] == rest && [e][1..] == [];
  }

  /** Whatever is checked for other targets, a target is served by its own bucket. */
  lemma {:induction false} TargetIsBucket(m: Manager, events: seq<Event>, target: string)
    requires target in m.buckets && KeepBucket(m, events, target)
    ensures var n := AfterEvents(m, events);
            target in n.buckets && n.buckets[target] == After(m.buckets[target], Calls(events, target))
    ensures AdmittedFor(m, events, target) == Admitted(m.buckets[target], Calls(events, target))
    decreases |events|
  {
    if events != [] {
      var e, rest := events[0], events[1..];
      assert events == [e] + rest;
      CallsCons(e, rest, target);
      TargetStep(m, e, target);
      OneCall(m, e, target);
      TargetIsBucket(Apply(m, e).0, rest, target);
      AfterConcat(m.buckets[target], Calls([e], target), Calls(rest, target));
    }
  }

  lemma {:induction false} CallsTimed(events: seq<Event>, target: string, from: real)
    requires EventsInOrder(from, events)
    ensures Timed(from, Calls(events, target))
  {
    if events != [] {
      CallsTimed(events[1..], target, events[0].time);
      var rest := Calls(events[1..], target);
      assert forall a: Ask :: ([a] + rest)[1..] == rest;
      assert [] + rest == rest;
      LaterStart(from, events[0].time, rest);
    }
  }

  lemma {:induction false} CallsUntil(events: seq<Event>, target: string, t: real)
    requires forall k :: 0 <= k < |events| ==> events[k].time <= t
    ensures Until(Calls(events, target), t)
  {
    if events != [] {
      CallsUntil(events[1..], target, t);
    }
  }

  lemma {:induction false} OrderParts(from: real, x: seq<Event>, y: seq<Event>) returns (end: real)
    requires EventsInOrder(from, x + y)
    ensures EventsInOrder(from, x) && EventsInOrder(end, y)
    ensures from <= end && (forall k :: 0 <= k < |x| ==> x[k].time <= end)
    ensures x == [] ==> end == from
    decreases |x|
  {
    if x == [] {
      assert x + y == y;
      end := from;
    } else {
      assert (x + y)[1..] == x[1..] + y;
      end := OrderParts(x[0].time, x[1..], y);
    }
  }

  lemma {:induction false} KeepParts(m: Manager, x: seq<Event>, y: seq<Event>, target: string)
    requires KeepBucket(m, x + y, target)
    ensures KeepBucket(m, x, target) && KeepBucket(AfterEvents(m, x), y, target)
    decreases |x|
  {
    if x == [] {
      assert x + y == y;
    } else {
      assert (x + y)[1..] == x[1..] + y;
      KeepParts(Apply(m, x[0]).0, x[1..], y, target);
    }
  }

  lemma {:induction false} LastNotAfter(b: Bucket, asks: seq<Ask>, from: real, end: real)
    requires b.last <= from && Timed(from, asks) && Until(asks, end) && from <= end
    ensures After(b, asks).last <= end
    decreases |asks|
  {
    if asks != [] {
      LastNotAfter(Take(b, asks[0].time, asks[0].amount).0, asks[1..], asks[0].time, end);
    }
  }

  /** From the moment a policy is set until its target gets or loses a bucket again, every window of events admits for
      that target at most the policy's bandwidth once, plus the bandwidth for each second of the window. */
  lemma {:induction false} TargetWindowBound(m: Manager, id: string, p: Policy, now: real, before: seq<Event>,
                                             window: seq<Event>, s: real, t: real)
    requires id != "" && p.appliesTo != "" && EventsInOrder(now, before + window) && s <= t
    requires KeepBucket(WithPolicy(m, id, p, now), before + window, p.appliesTo)
    requires (window != [] ==> s <= window[0].time) && forall k :: 0 <= k < |window| ==> window[k].time <= t
    ensures AdmittedFor(AfterEvents(WithPolicy(m, id, p, now), before), window, p.appliesTo)
         <= Bandwidth(p) + Gain(Bandwidth(p), s, t)
  {
    var first, target := WithPolicy(m, id, p, now), p.appliesTo;
    var b := PolicyBucket(p, now);
    PolicyBucketOk(p, now);
    KeepParts(first, before, window, target);
    TargetIsBucket(first, before, target);
    TargetIsBucket(AfterEvents(first, before), window, target);
    var end := OrderParts(now, before, window);
    CallsTimed(before, target, now);
    CallsUntil(before, target, end);
    LastNotAfter(b, Calls(before, target), now, end);
    LaterWindow(window, s, end);
    CallsTimed(window, target, if s <= end then end else s);
    LaterStart(After(b, Calls(before, target)).last, if s <= end then end else s, Calls(window, target));
    CallsUntil(window, target, t);
    FirstNotBefore(Calls(window, target), s, if s <= end then end else s);
    WindowBound(b, Calls(before, target), Calls(window, target), s, t);
  }

  lemma LaterWindow(window: seq<Event>, s: real, end: real)
    requires EventsInOrder(end, window) && (window != [] ==> s <= window[0].time)
    ensures EventsInOrder(if s <= end then end else s, window)
  {
  }

  lemma {:induction false} FirstNotBefore(asks: seq<Ask>, s: real, from: real)
    requires Timed(from, asks) && s <= from
    ensures asks != [] ==> s <= asks[0].time
  {
  }

  class QoSManager {
    var policies: map<string, Policy>
    var buckets: map<string, Bucket>
    var usage: map<string, real>

    constructor ()
      ensures View() == NEW_MANAGER
    {
      policies, buckets, usage := map[], map[], map[];
    }

    function View(): Manager
      reads this
    {
      Manager(policies, buckets, usage)
    }

    method SetPolicy(id: string, p: Policy, now: real) returns (ok: bool)
      modifies `policies, `buckets
      ensures ok <==> id != "" && p.appliesTo != ""
      ensures View() == WithPolicy(old(View()), id, p, now)
    {
      if id == "" || p.appliesTo == "" {
        return false;
      }
      policies := policies[id := p];
      var capacity := p.bandwidth as real;
      if capacity <= 0.0 {
        capacity := 1.0;
      }
      buckets := buckets[p.appliesTo := Bucket(capacity, capacity, capacity, now)];
      return true;
    }

    method RemovePolicy(id: string)
      modifies `policies, `buckets
      ensures View() == WithoutPolicy(old(View()), id)
    {
      if id in policies {
        buckets := buckets - {policies[id].appliesTo};
        policies := policies - {id};
      }
    }

    /** Some policy for the target, or the zero policy, which is not soft. */
    method PolicyFor(appliesTo: string) returns (p: Policy)
      ensures (exists id :: id in policies && policies[id].appliesTo == appliesTo && p == policies[id])
           || (p == Policy("", 0, false) && forall id :: id in policies ==> policies[id].appliesTo != appliesTo)
    {
      var todo := policies.Keys;
      while todo != {}
        invariant todo <= policies.Keys
        invariant forall id :: id in policies && id !in todo ==> policies[id].appliesTo != appliesTo
      {
        var id :| id in todo;
        if policies[id].appliesTo == appliesTo {
          return policies[id];
        }
        todo := todo - {id};
      }
      return Policy("", 0, false);
    }

    method CheckAdmission(appliesTo: string, required: int, now: real) returns (d: Decision, ghost soft: bool)
      modifies `buckets, `usage
      ensures ModeOf(policies, appliesTo, soft)
      ensures (View(), d) == CheckOn(old(View()), appliesTo, required, soft, now)
    {
      var pol := PolicyFor(appliesTo);
      soft := pol.soft;
      if appliesTo !in buckets {
        return NoPolicy, soft;
      }
      var (b, ok) := Take(buckets[appliesTo], now, required as real);
      buckets := buckets[appliesTo := b];
      if ok {
        usage := usage[appliesTo := Used(usage, appliesTo) + required as real];
        return Admit, soft;
      }
      return if pol.soft then SoftThrottle else Insufficient, soft;
    }

    method RefillAll(now: real)
      modifies `buckets
      ensures View() == Refilled(old(View()), now)
    {
      var todo := buckets.Keys;
      while todo != {}
        invariant todo <= buckets.Keys == old(buckets).Keys
        invariant forall a :: a in buckets ==>
                    buckets[a] == if a in todo then old(buckets)[a] else Take(old(buckets)[a], now, 0.0).0
      {
        var a :| a in todo;
        buckets := buckets[a := Take(buckets[a], now, 0.0).0];
        todo := todo - {a};
      }
    }
  }

  // ---------- the gateway's policy engine ----------

  datatype Engine = Engine(ratePerMin: map<string, int>, tokens: map<string, real>, lastRefill: map<string, real>,
                           geoBlacklist: set<string>)

  /** A request with the caller's location, if its metadata names one. */
  datatype Request = Request(service: string, geo: Option<string>)

  datatype Reply = Allowed | GeoBlocked | RateLimited

  predicate Blocked(e: Engine, req: Request) {
    req.geo.Some? && req.geo.value != "" && req.geo.value in e.geoBlacklist
  }

  predicate Limited(e: Engine, service: string) {
    service in e.ratePerMin && e.ratePerMin[service] > 0
  }

  function WithRate(e: Engine, service: string, perMinute: int, now: real): Engine {
    e.(ratePerMin := e.ratePerMin[service := perMinute], tokens := e.tokens[service := perMinute as real],
       lastRefill := e.lastRefill[service := now])
  }

  /** A limited service's part of the maps, read as a bucket. A refill time never set counts as now. */
  function ServiceBucket(e: Engine, service: string, now: real): Bucket
    requires Limited(e, service)
  {
    var limit := e.ratePerMin[service] as real;
    Bucket(limit, limit / 60.0, Used(e.tokens, service), if service in e.lastRefill then e.lastRefill[service] else now)
  }

  function WithBucket(e: Engine, service: string, b: Bucket): Engine {
    e.(tokens := e.tokens[service := b.tokens], lastRefill := e.lastRefill[service := b.last])
  }

  function AllowRequest(e: Engine, req: Request, now: real): (Engine, Reply) {
    if Blocked(e, req) then (e, GeoBlocked)
    else if !Limited(e, req.service) then (e, Allowed)
    else
      var (b, ok) := Take(ServiceBucket(e, req.service, now), now, 1.0);
      (WithBucket(e, req.service, b), if ok then Allowed else RateLimited)
  }

  datatype Arrival = Arrival(time: real, req: Request)

  /** How many requests of one service are let through in a run of requests to any services. */
  function AllowedCount(e: Engine, reqs: seq<Arrival>, service: string): nat
    decreases |reqs|
  {
    if reqs == [] then 0
    else
      var (next, reply) := AllowRequest(e, reqs[0].req, reqs[0].time);
      (if reply == Allowed && reqs[0].req.service == service then 1 else 0) + AllowedCount(next, reqs[1..], service)
  }

  /** The requests that reach the service's bucket. */
  function Reaching(e: Engine, reqs: seq<Arrival>, service: string): seq<Ask> {
    if reqs == [] then []
    else
      (if reqs[0].req.service == service && !Blocked(e, reqs[0].req) then [Ask(reqs[0].time, 1.0, false)] else [])
      + Reaching(e, reqs[1..], service)
  }

  ghost predicate InOrder(from: real, reqs: seq<Arrival>)
    decreases |reqs|
  {
    reqs != [] ==> from <= reqs[0].time && InOrder(reqs[0].time, reqs[1..])
  }

  /** The service has a limit, and its refill time is set and not in the future. */
  ghost predicate Configured(e: Engine, service: string, now: real) {
    Limited(e, service) && service in e.lastRefill && e.lastRefill[service] <= now && Ok(ServiceBucket(e, service, now))
  }

  /** Setting a rate gives the service a full bucket. */
  lemma RateConfigures(e: Engine, service: string, perMinute: int, now: real)
    requires perMinute > 0
    ensures Configured(WithRate(e, service, perMinute, now), service, now)
    ensures ServiceBucket(WithRate(e, service, perMinute, now), service, now).tokens == perMinute as real
  {
  }

  /** A request moves only its own service's bucket. */
  lemma OtherServices(e: Engine, req: Request, now: real, service: string, t: real)
    requires Configured(e, service, t) && (req.service != service || Blocked(e, req))
    ensures var next := AllowRequest(e, req, now).0;
            && next.ratePerMin == e.ratePerMin && next.geoBlacklist == e.geoBlacklist
            && Configured(next, service, t) && ServiceBucket(next, service, t) == ServiceBucket(e, service, t)
  {
  }

  lemma OwnService(e: Engine, req: Request, now: real)
    requires Configured(e, req.service, now) && !Blocked(e, req)
    ensures var (next, reply) := AllowRequest(e, req, now);
            var (b, ok) := Take(ServiceBucket(e, req.service, now), now, 1.0);
            && next.ratePerMin == e.ratePerMin && next.geoBlacklist == e.geoBlacklist
            && Configured(next, req.service, now) && ServiceBucket(next, req.service, now) == b
            && reply == (if ok then Allowed else RateLimited)
  {
    RefillOk(ServiceBucket(e, req.service, now), now);
  }

  /** One request that reaches the service's bucket, before the rest. */
  lemma {:induction false} OwnArrival(e: Engine, reqs: seq<Arrival>, service: string, from: real, rest: seq<Ask>)
    requires reqs != [] && Configured(e, service, from) && from <= reqs[0].time
    requires reqs[0].req.service == service && !Blocked(e, reqs[0].req) && TokenBuckets.Timed(reqs[0].time, rest)
    requires var next := AllowRequest(e, reqs[0].req, reqs[0].time).0;
             AllowedCount(next, reqs[1..], service) as real
             == Admitted(Take(ServiceBucket(e, service, from), reqs[0].time, 1.0).0, rest)
    ensures var asks := [Ask(reqs[0].time, 1.0, false)] + rest;
            && TokenBuckets.Timed(from, asks)
            && AllowedCount(e, reqs, service) as real == Admitted(ServiceBucket(e, service, from), asks)
  {
    assert ([Ask(reqs[0].time, 1.0, false)] + rest)[1..] == rest;
  }

  /** Whatever other services do, one service is served by its own bucket. */
  lemma {:induction false} ServiceIsBucket(e: Engine, reqs: seq<Arrival>, service: string, from: real)
    requires Configured(e, service, from) && InOrder(from, reqs)
    ensures var asks := Reaching(e, reqs, service);
            && TokenBuckets.Timed(from, asks)
            && AllowedCount(e, reqs, service) as real == Admitted(ServiceBucket(e, service, from), asks)
    decreases |reqs|
  {
    if reqs != [] {
      var now, req := reqs[0].time, reqs[0].req;
      var next := AllowRequest(e, req, now).0;
      var rest := Reaching(e, reqs[1..], service);
      ConfiguredLater(e, service, from, now);
      if req.service == service && !Blocked(e, req) {
        OwnService(e, req, now);
        SameReach(e, next, reqs[1..], service);
        ServiceIsBucket(next, reqs[1..], service, now);
        OwnArrival(e, reqs, service, from, rest);
      } else {
        OtherServices(e, req, now, service, now);
        SameReach(e, next, reqs[1..], service);
        ServiceIsBucket(next, reqs[1..], service, now);
        assert [] + rest == rest;
        LaterStart(from, now, rest);
      }
    }
  }

  lemma {:induction false} ReachingUntil(e: Engine, reqs: seq<Arrival>, service: string, t: real)
    requires forall k :: 0 <= k < |reqs| ==> reqs[k].time <= t
    ensures Until(Reaching(e, reqs, service), t)
  {
    if reqs != [] {
      ReachingUntil(e, reqs[1..], service, t);
    }
  }

  lemma {:induction false} LaterStart(from: real, now: real, asks: seq<Ask>)
    requires from <= now && TokenBuckets.Timed(now, asks)
    ensures TokenBuckets.Timed(from, asks)
  {
  }

  lemma {:induction false} SameReach(e: Engine, f: Engine, reqs: seq<Arrival>, service: string)
    requires f.geoBlacklist == e.geoBlacklist
    ensures Reaching(f, reqs, service) == Reaching(e, reqs, service)
  {
    if reqs != [] {
      SameReach(e, f, reqs[1..], service);
    }
  }

  /** In any window without a change of its rate, a service lets through at most its limit plus what is earned. */
  lemma {:induction false} ServiceWindowBound(e: Engine, reqs: seq<Arrival>, service: string, s: real, t: real)
    requires Configured(e, service, s) && InOrder(s, reqs) && s <= t
    requires forall k :: 0 <= k < |reqs| ==> reqs[k].time <= t
    ensures AllowedCount(e, reqs, service) as real
         <= e.ratePerMin[service] as real + Gain(e.ratePerMin[service] as real / 60.0, s, t)
  {
    ServiceIsBucket(e, reqs, service, s);
    var b := ServiceBucket(e, service, s);
    var asks := Reaching(e, reqs, service);
    StartsNotBefore(b.last, s, asks);
    ReachingUntil(e, reqs, service, t);
    WindowBound(b, [], asks, s, t);
  }

  function AfterRequests(e: Engine, reqs: seq<Arrival>): Engine
    decreases |reqs|
  {
    if reqs == [] then e else AfterRequests(AllowRequest(e, reqs[0].req, reqs[0].time).0, reqs[1..])
  }

  lemma ConfiguredLater(e: Engine, service: string, now: real, later: real)
    requires Configured(e, service, now) && now <= later
    ensures Configured(e, service, later)
  {
  }

  lemma {:induction false} StaysConfigured(e: Engine, reqs: seq<Arrival>, service: string, from: real, end: real)
    requires Configured(e, service, from) && InOrder(from, reqs) && from <= end
    requires forall k :: 0 <= k < |reqs| ==> reqs[k].time <= end
    ensures Configured(AfterRequests(e, reqs), service, end)
    ensures AfterRequests(e, reqs).ratePerMin == e.ratePerMin
    decreases |reqs|
  {
    if reqs == [] {
      ConfiguredLater(e, service, from, end);
    } else {
      var now, req := reqs[0].time, reqs[0].req;
      ConfiguredLater(e, service, from, now);
      if req.service == service && !Blocked(e, req) {
        OwnService(e, req, now);
      } else {
        OtherServices(e, req, now, service, now);
      }
      StaysConfigured(AllowRequest(e, req, now).0, reqs[1..], service, now, end);
    }
  }

  /** From the moment a service's rate is set, every later window lets through at most the rate once, plus what is
      earned in the window, whatever other services do. */
  lemma {:induction false} RateWindowBound(e: Engine, service: string, perMinute: int, now: real, before: seq<Arrival>,
                                           window: seq<Arrival>, s: real, t: real)
    requires perMinute > 0 && InOrder(now, before) && now <= s <= t && InOrder(s, window)
    requires forall k :: 0 <= k < |before| ==> before[k].time <= s
    requires forall k :: 0 <= k < |window| ==> window[k].time <= t
    ensures AllowedCount(AfterRequests(WithRate(e, service, perMinute, now), before), window, service) as real
         <= perMinute as real + Gain(perMinute as real / 60.0, s, t)
  {
    RateConfigures(e, service, perMinute, now);
    StaysConfigured(WithRate(e, service, perMinute, now), before, service, now, s);
    ServiceWindowBound(AfterRequests(WithRate(e, service, perMinute, now), before), window, service, s, t);
  }

  lemma {:induction false} StartsNotBefore(last: real, s: real, asks: seq<Ask>)
    requires last <= s && TokenBuckets.Timed(s, asks)
    ensures TokenBuckets.Timed(last, asks)
  {
  }

  class InMemoryPolicyEngine {
    var ratePerMin: map<string, int>
    var tokens: map<string, real>
    var lastRefill: map<string, real>
    var geoBlacklist: set<string>

    constructor ()
      ensures View() == Engine(map[], map[], map[], {})
    {
      ratePerMin, tokens, lastRefill, geoBlacklist := map[], map[], map[], {};
    }

    function View(): Engine
      reads this
    {
      Engine(ratePerMin, tokens, lastRefill, geoBlacklist)
    }

    method SetRate(service: string, perMinute: int, now: real)
      modifies this
      ensures View() == WithRate(old(View()), service, perMinute, now)
    {
      ratePerMin := ratePerMin[service := perMinute];
      tokens := tokens[service := perMinute as real];
      lastRefill := lastRefill[service := now];
    }

    method Allow(req: Request, now: real) returns (reply: Reply)
      modifies `tokens, `lastRefill
      ensures (View(), reply) == AllowRequest(old(View()), req, now)
    {
      if req.geo.Some? && req.geo.value != "" {
        if req.geo.value in geoBlacklist {
          return GeoBlocked;
        }
      }
      if req.service !in ratePerMin || ratePerMin[req.service] <= 0 {
        return Allowed;
      }
      var limit := ratePerMin[req.service] as real;
      var last := now;
      if req.service in lastRefill {
        last := lastRefill[req.service];
      }
      var elapsed := now - last;
      var refill := elapsed * (limit / 60.0);
      ghost var b := ServiceBucket(View(), req.service, now);
      assert b == Bucket(limit, limit / 60.0, Used(tokens, req.service), last);
      assert refill == Gain(b.rate, b.last, now);
      var left := Used(tokens, req.service) + refill;
      if left > limit {
        left := limit;
      }
      assert Refill(b, now) == b.(tokens := left, last := now);
      lastRefill := lastRefill[req.service := now];
      if left >= 1.0 {
        tokens := tokens[req.service := left - 1.0];
        return Allowed;
      }
      tokens := tokens[req.service := left];
      return RateLimited;
    }
  }
}
