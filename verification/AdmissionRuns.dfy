/** Exactly what is admitted over runs of the QoS manager and of the gateway's per-service limit, and that refusals
    leave no trace. */
module AdmissionRuns {
  import opened TokenBuckets
  import opened Admission
  import opened Options

  // ---------- the QoS manager ----------

  /** A policy's bandwidth is its tokens per second, its capacity and what its bucket starts with; at least one. */
  function NewBucket(bandwidth: int, now: real): Bucket {
    var bw := if bandwidth >= 1 then bandwidth as real else 1.0;
    Bucket(bw, bw, bw, now)
  }

  lemma {:induction false} EventsOfCalls(events: seq<Event>, target: string, from: real, u: real)
    requires EventsInOrder(from, events) && from <= u && forall k :: 0 <= k < |events| ==> events[k].time <= u
    ensures Timed(from, Calls(events, target)) && NotBefore(Calls(events, target), from, u)
  {
    CallsTimed(events, target, from);
    Admission.CallsUntil(events, target, u);
  }

  /** From the moment a policy is set until its target gets or loses a bucket again, whatever else is set and checked,
      a check for that target is admitted exactly if no window that ends with it would exceed its bound. Only then is
      the amount counted as used; the rest passes as throttled where the policy is soft, and is refused otherwise. */
  lemma {:induction false} CheckExactly(m: Manager, id: string, p: Policy, now: real, before: seq<Event>, u: real,
                                        required: int, soft: bool)
    requires id != "" && p.appliesTo != "" && EventsInOrder(now, before) && now <= u
    requires forall k :: 0 <= k < |before| ==> before[k].time <= u
    requires KeepBucket(WithPolicy(m, id, p, now), before, p.appliesTo)
    ensures var n := AfterEvents(WithPolicy(m, id, p, now), before);
            var (r, d) := CheckOn(n, p.appliesTo, required, soft, u);
            && d == (if Affordable(NewBucket(p.bandwidth, now), Calls(before, p.appliesTo), u, required as real)
                     then Admit else if soft then SoftThrottle else Insufficient)
            && r.usage == (if d == Admit
                           then n.usage[p.appliesTo := Used(n.usage, p.appliesTo) + required as real] else n.usage)
            && r.policies == n.policies
  {
    var first, target := WithPolicy(m, id, p, now), p.appliesTo;
    PolicyBucketOk(p, now);
    assert PolicyBucket(p, now) == NewBucket(p.bandwidth, now);
    TargetIsBucket(first, before, target);
    EventsOfCalls(before, target, now, u);
    AdmittedExactly(PolicyBucket(p, now), Calls(before, target), u, required as real);
  }

  /** Without a bucket nothing is admitted or changed. */
  lemma NoBucket(m: Manager, target: string, required: int, soft: bool, u: real)
    requires target !in m.buckets
    ensures CheckOn(m, target, required, soft, u) == (m, NoPolicy)
  {
  }

  /** A policy with an id and a target is stored and gives its target a full bucket; any other changes nothing. */
  lemma DefineExactly(m: Manager, id: string, p: Policy, now: real)
    ensures Apply(m, Define(now, id, p))
         == (if id == "" || p.appliesTo == "" then m
             else Manager(m.policies[id := p], m.buckets[p.appliesTo := NewBucket(p.bandwidth, now)], m.usage), [])
  {
  }

  /** Removing a policy takes its target's bucket with it. */
  lemma RemoveExactly(m: Manager, id: string, now: real)
    ensures Apply(m, Remove(now, id))
         == (if id !in m.policies then m
             else Manager(m.policies - {id}, m.buckets - {m.policies[id].appliesTo}, m.usage), [])
  {
  }

  /** Some policy, other than that under `except`, is for the target. */
  ghost predicate Served(m: Manager, target: string, except: Option<string>) {
    exists id :: id in m.policies && Some(id) != except && m.policies[id].appliesTo == target
  }

  /** Exactly the targets of policies have buckets. */
  ghost predicate Matched(m: Manager) {
    forall target :: target in m.buckets <==> Served(m, target, None)
  }

  /** A policy is not changed to another target, nor removed, so as to leave an old bucket behind, or another policy
      without one. */
  ghost predicate Tidy(m: Manager, e: Event) {
    match e
    case Define(_, id, p) =>
      id != "" && p.appliesTo != "" && id in m.policies && m.policies[id].appliesTo != p.appliesTo ==>
        Served(m, m.policies[id].appliesTo, Some(id))
    case Remove(_, id) => id in m.policies ==> !Served(m, m.policies[id].appliesTo, Some(id))
    case _ => true
  }

  lemma ServedAfterDefine(m: Manager, id: string, p: Policy, now: real, target: string)
    requires id != "" && p.appliesTo != ""
    ensures Served(WithPolicy(m, id, p, now), target, None) <==> target == p.appliesTo || Served(m, target, Some(id))
    ensures Served(m, target, None)
        <==> (id in m.policies && m.policies[id].appliesTo == target) || Served(m, target, Some(id))
  {
    var n := WithPolicy(m, id, p, now);
    assert id in n.policies && n.policies[id] == p;
    if x :| x in m.policies && x != id && m.policies[x].appliesTo == target {
      assert x in n.policies && n.policies[x] == m.policies[x];
    }
  }

  lemma ServedAfterRemove(m: Manager, id: string, target: string)
    requires id in m.policies
    ensures Served(WithoutPolicy(m, id), target, None) <==> Served(m, target, Some(id))
    ensures Served(m, target, None) <==> m.policies[id].appliesTo == target || Served(m, target, Some(id))
  {
    var n := WithoutPolicy(m, id);
    if x :| x in m.policies && x != id && m.policies[x].appliesTo == target {
      assert x in n.policies && n.policies[x] == m.policies[x];
    }
  }

  /** An event keeps buckets and policies matched exactly if it is tidy. */
  lemma MatchedExactly(m: Manager, e: Event)
    requires Matched(m)
    ensures Matched(Apply(m, e).0) <==> Tidy(m, e)
  {
    var n := Apply(m, e).0;
    match e {
      case Define(now, id, p) =>
        if id != "" && p.appliesTo != "" {
          forall target
            ensures (target in n.buckets <==> Served(n, target, None))
                <==> (Tidy(m, e) || target != m.policies[id].appliesTo)
          {
            ServedAfterDefine(m, id, p, now, target);
          }
          if !Tidy(m, e) {
            var former := m.policies[id].appliesTo;
            ServedAfterDefine(m, id, p, now, former);
            assert former in n.buckets && !Served(n, former, None);
          }
        }
      case Remove(_, id) =>
        if id in m.policies {
          forall target
            ensures (target in n.buckets <==> Served(n, target, None))
                <==> (Tidy(m, e) || target != m.policies[id].appliesTo)
          {
            ServedAfterRemove(m, id, target);
          }
        }
      case _ => SameTargets(m, n);
    }
  }

  lemma SameTargets(m: Manager, n: Manager)
    requires Matched(m) && n.policies == m.policies && n.buckets.Keys == m.buckets.Keys
    ensures Matched(n)
  {
    forall target
      ensures Served(n, target, None) <==> Served(m, target, None)
    {
    }
  }

  /** The manager kept matched by every event of the run. */
  ghost predicate AllTidy(m: Manager, events: seq<Event>)
    decreases |events|
  {
    events == [] || (Tidy(m, events[0]) && AllTidy(Apply(m, events[0]).0, events[1..]))
  }

  /** In every run of tidy events exactly the targets of policies have buckets. */
  lemma {:induction false} MatchedRun(m: Manager, events: seq<Event>)
    requires Matched(m) && AllTidy(m, events)
    ensures Matched(AfterEvents(m, events))
    decreases |events|
  {
    if events != [] {
      MatchedExactly(m, events[0]);
      MatchedRun(Apply(m, events[0]).0, events[1..]);
    }
  }

  lemma UsageStep(m: Manager, e: Event, a: string)
    ensures var (n, ds) := Apply(m, e);
            Used(n.usage, a)
            == Used(m.usage, a) + if ds == [Admit] && e.target == a then e.required as real else 0.0
  {
  }

  lemma {:induction false} UsageGrows(m: Manager, events: seq<Event>, a: string)
    ensures Used(AfterEvents(m, events).usage, a) == Used(m.usage, a) + AdmittedFor(m, events, a)
    decreases |events|
  {
    if events != [] {
      UsageStep(m, events[0], a);
      UsageGrows(Apply(m, events[0]).0, events[1..], a);
    }
  }

  /** In every run the usage recorded for a target is the sum of what was admitted for it. */
  lemma {:induction false} UsageIsAdmitted(events: seq<Event>, a: string)
    ensures var usage := AfterEvents(NEW_MANAGER, events).usage;
            (if a in usage then usage[a] else 0.0) == AdmittedFor(NEW_MANAGER, events, a)
  {
    UsageGrows(NEW_MANAGER, events, a);
  }

  lemma SoundStep(m: Manager, from: real, e: Event)
    requires AlikeManagers(m, m, from) && from <= e.time
    ensures AlikeManagers(Apply(m, e).0, Apply(m, e).0, e.time)
  {
    if e.Tick? {
      AlikeAfterTickEvent(m, m, from, e.time);
      var n := Refilled(m, e.time);
      forall a
        ensures AlikeAt(n, n, a, e.time)
      {
        assert AlikeAt(n, m, a, e.time);
      }
    } else {
      AlikeAfterEvent(m, m, from, e);
    }
  }

  lemma {:induction false} SoundRun(m: Manager, from: real, events: seq<Event>, end: real)
    requires AlikeManagers(m, m, from) && EventsInOrder(from, events) && from <= end
    requires forall k :: 0 <= k < |events| ==> events[k].time <= end
    ensures AlikeManagers(AfterEvents(m, events), AfterEvents(m, events), end)
    decreases |events|
  {
    if events != [] {
      SoundStep(m, from, events[0]);
      SoundRun(Apply(m, events[0]).0, events[0].time, events[1..], end);
    } else {
      SoundLater(m, from, end);
    }
  }

  lemma SoundLater(m: Manager, from: real, end: real)
    requires AlikeManagers(m, m, from) && from <= end
    ensures AlikeManagers(m, m, end)
  {
    forall a
      ensures AlikeAt(m, m, a, end)
    {
      assert AlikeAt(m, m, a, from);
    }
  }

  lemma {:induction false} DecisionsConcat(m: Manager, x: seq<Event>, y: seq<Event>)
    ensures Decisions(m, x + y) == Decisions(m, x) + Decisions(AfterEvents(m, x), y)
    decreases |x|
  {
    if x == [] {
      assert x + y == y;
    } else {
      assert (x + y)[1..] == x[1..] + y;
      DecisionsConcat(Apply(m, x[0]).0, x[1..], y);
    }
  }

  /** Refusing leaves a manager that decides as the one before. */
  lemma RefusalIsAlike(m: Manager, from: real, e: Event)
    requires AlikeManagers(m, m, from) && e.Check? && from <= e.time && Apply(m, e).1 != [Admit]
    ensures AlikeManagers(Apply(m, e).0, m, e.time)
  {
    var n := Apply(m, e).0;
    forall a
      ensures AlikeAt(n, m, a, e.time)
    {
      assert AlikeAt(m, m, a, from);
      if a in m.buckets && a == e.target {
        RefusalIsRefill(m.buckets[a], e.time, e.required as real);
      }
    }
  }

  /** Over any run, a check that was refused or throttled changes no other decision: without it, all others are the
      same. */
  lemma {:induction false} RefusedCheckChangesNothing(before: seq<Event>, refused: Event, after: seq<Event>, from: real)
    requires EventsInOrder(from, before + ([refused] + after)) && refused.Check?
    requires Apply(AfterEvents(NEW_MANAGER, before), refused).1 != [Admit]
    ensures var m := AfterEvents(NEW_MANAGER, before);
            && Decisions(NEW_MANAGER, before + ([refused] + after))
               == Decisions(NEW_MANAGER, before) + (Apply(m, refused).1 + Decisions(m, after))
            && Decisions(NEW_MANAGER, before + after) == Decisions(NEW_MANAGER, before) + Decisions(m, after)
  {
    var end := OrderParts(from, before, [refused] + after);
    var m := AfterEvents(NEW_MANAGER, before);
    SoundRun(NEW_MANAGER, from, before, end);
    assert ([refused] + after)[1..] == after;
    RefusalIsAlike(m, end, refused);
    var r := Apply(m, refused).0;
    AlikeDecisions(r, m, refused.time, after);
    SoundLater(m, end, refused.time);
    AlikeDecisions(m, m, refused.time, after);
    DecisionsConcat(NEW_MANAGER, before, [refused] + after);
    DecisionsConcat(NEW_MANAGER, before, after);
  }

  // ---------- the gateway ----------

  /** From the moment a service's rate is set, whatever is asked of other services, a request to it from a place that is
      not blocked passes exactly if no window that ends with it would exceed its bound: the rate once, and a sixtieth
      of it for each second. */
  lemma {:induction false} RequestExactly(e: Engine, service: string, perMinute: int, now: real, before: seq<Arrival>,
                                          u: real, geo: Option<string>)
    requires perMinute > 0 && InOrder(now, before) && now <= u
    requires forall k :: 0 <= k < |before| ==> before[k].time <= u
    ensures var rate := perMinute as real;
            var first := WithRate(e, service, perMinute, now);
            AllowRequest(AfterRequests(first, before), Request(service, geo), u).1
            == if geo.Some? && geo.value != "" && geo.value in e.geoBlacklist then GeoBlocked
               else if Affordable(Bucket(rate, rate / 60.0, rate, now), Reaching(first, before, service), u, 1.0)
               then Allowed else RateLimited
  {
    var first := WithRate(e, service, perMinute, now);
    RateConfigures(e, service, perMinute, now);
    BucketAfter(first, before, service, now, u);
    var asks := Reaching(first, before, service);
    ReachingUntil(first, before, service, u);
    AdmittedExactly(ServiceBucket(first, service, now), asks, u, 1.0);
    var n := AfterRequests(first, before);
    if !Blocked(n, Request(service, geo)) {
      OwnService(n, Request(service, geo), u);
    }
  }

  /** A service without a limit, or with one that is not positive, is never limited. */
  lemma Unlimited(e: Engine, req: Request, u: real)
    requires !Blocked(e, req) && !(req.service in e.ratePerMin && e.ratePerMin[req.service] > 0)
    ensures AllowRequest(e, req, u) == (e, Allowed)
  {
  }

  /** After any requests a service's part of the maps is its bucket after those that reached it. */
  lemma {:induction false} BucketAfter(e: Engine, reqs: seq<Arrival>, service: string, from: real, u: real)
    requires Configured(e, service, from) && InOrder(from, reqs) && from <= u
    requires forall k :: 0 <= k < |reqs| ==> reqs[k].time <= u
    ensures var n := AfterRequests(e, reqs);
            && Configured(n, service, u) && n.geoBlacklist == e.geoBlacklist
            && ServiceBucket(n, service, u) == After(ServiceBucket(e, service, from), Reaching(e, reqs, service))
            && TokenBuckets.Timed(ServiceBucket(e, service, from).last, Reaching(e, reqs, service))
    decreases |reqs|
  {
    if reqs == [] {
      ConfiguredLater(e, service, from, u);
    } else {
      var now, req := reqs[0].time, reqs[0].req;
      var next := AllowRequest(e, req, now).0;
      ConfiguredLater(e, service, from, now);
      var rest := Reaching(e, reqs[1..], service);
      if req.service == service && !Blocked(e, req) {
        OwnService(e, req, now);
        assert ([Ask(now, 1.0, false)] + rest)[1..] == rest;
      } else {
        OtherServices(e, req, now, service, now);
        assert [] + rest == rest;
      }
      SameReach(e, next, reqs[1..], service);
      BucketAfter(next, reqs[1..], service, now, u);
      ServiceIsBucket(e, reqs, service, from);
      StartsNotBefore(ServiceBucket(e, service, from).last, from, Reaching(e, reqs, service));
    }
  }

  function Replies(e: Engine, reqs: seq<Arrival>): (r: seq<Reply>)
    ensures |r| == |reqs|
    decreases |reqs|
  {
    if reqs == [] then []
    else
      var (next, reply) := AllowRequest(e, reqs[0].req, reqs[0].time);
      [reply] + Replies(next, reqs[1..])
  }

  /** Engines that will reply the same from some time on. */
  ghost predicate AlikeEngines(e: Engine, f: Engine, from: real) {
    && e.ratePerMin == f.ratePerMin && e.geoBlacklist == f.geoBlacklist
    && forall s :: Limited(e, s) ==> AlikeService(e, f, s, from)
  }

  ghost predicate AlikeService(e: Engine, f: Engine, s: string, from: real)
    requires Limited(e, s) && Limited(f, s)
  {
    && Configured(e, s, from) && Configured(f, s, from)
    && Alike(ServiceBucket(e, s, from), ServiceBucket(f, s, from), from)
  }

  lemma AlikeReply(e: Engine, f: Engine, from: real, req: Request, now: real)
    requires AlikeEngines(e, f, from) && from <= now
    ensures AllowRequest(e, req, now).1 == AllowRequest(f, req, now).1
    ensures AlikeEngines(AllowRequest(e, req, now).0, AllowRequest(f, req, now).0, now)
  {
    var (e1, re) := AllowRequest(e, req, now);
    var (f1, rf) := AllowRequest(f, req, now);
    if Limited(e, req.service) && !Blocked(e, req) {
      assert AlikeService(e, f, req.service, from);
      AlikeAfterAsk(ServiceBucket(e, req.service, from), ServiceBucket(f, req.service, from), from, now, 1.0);
    }
    forall s | Limited(e1, s)
      ensures AlikeService(e1, f1, s, now)
    {
      assert AlikeService(e, f, s, from);
    }
  }

  lemma {:induction false} AlikeReplies(e: Engine, f: Engine, from: real, reqs: seq<Arrival>)
    requires AlikeEngines(e, f, from) && InOrder(from, reqs)
    ensures Replies(e, reqs) == Replies(f, reqs)
    decreases |reqs|
  {
    if reqs != [] {
      AlikeReply(e, f, from, reqs[0].req, reqs[0].time);
      AlikeReplies(AllowRequest(e, reqs[0].req, reqs[0].time).0, AllowRequest(f, reqs[0].req, reqs[0].time).0,
                   reqs[0].time, reqs[1..]);
    }
  }

  lemma RefusedIsAlike(e: Engine, from: real, req: Request, now: real)
    requires AlikeEngines(e, e, from) && from <= now && AllowRequest(e, req, now).1 != Allowed
    ensures AlikeEngines(AllowRequest(e, req, now).0, e, now)
  {
    var n := AllowRequest(e, req, now).0;
    forall s | Limited(n, s)
      ensures AlikeService(n, e, s, now)
    {
      assert AlikeService(e, e, s, from);
      if s == req.service && !Blocked(e, req) {
        RefusalIsRefill(ServiceBucket(e, s, from), now, 1.0);
      }
    }
  }

  /** Every limited service was given its limit by a set rate, some time ago. */
  ghost predicate AllConfigured(e: Engine, from: real) {
    forall s :: Limited(e, s) ==> Configured(e, s, from)
  }

  lemma {:induction false} StaysAllConfigured(e: Engine, from: real, reqs: seq<Arrival>, end: real)
    requires AllConfigured(e, from) && InOrder(from, reqs) && from <= end
    requires forall k :: 0 <= k < |reqs| ==> reqs[k].time <= end
    ensures AllConfigured(AfterRequests(e, reqs), end)
  {
    forall s | Limited(AfterRequests(e, reqs), s)
      ensures Configured(AfterRequests(e, reqs), s, end)
    {
      RatesStay(e, reqs);
      StaysConfigured(e, reqs, s, from, end);
    }
  }

  lemma {:induction false} RatesStay(e: Engine, reqs: seq<Arrival>)
    ensures AfterRequests(e, reqs).ratePerMin == e.ratePerMin
    decreases |reqs|
  {
    if reqs != [] {
      RatesStay(AllowRequest(e, reqs[0].req, reqs[0].time).0, reqs[1..]);
    }
  }

  lemma {:induction false} RepliesConcat(e: Engine, x: seq<Arrival>, y: seq<Arrival>)
    ensures Replies(e, x + y) == Replies(e, x) + Replies(AfterRequests(e, x), y)
    decreases |x|
  {
    if x == [] {
      assert x + y == y;
    } else {
      assert (x + y)[1..] == x[1..] + y;
      RepliesConcat(AllowRequest(e, x[0].req, x[0].time).0, x[1..], y);
    }
  }

  lemma {:induction false} RefusedNow(e: Engine, from: real, refused: Arrival, after: seq<Arrival>)
    requires AllConfigured(e, from) && InOrder(from, [refused] + after)
    requires AllowRequest(e, refused.req, refused.time).1 != Allowed
    ensures Replies(e, [refused] + after)
         == [AllowRequest(e, refused.req, refused.time).1] + Replies(e, after)
  {
    assert ([refused] + after)[1..] == after;
    forall s | Limited(e, s)
      ensures AlikeService(e, e, s, from)
    {
      assert Configured(e, s, from);
    }
    RefusedIsAlike(e, from, refused.req, refused.time);
    AlikeReplies(AllowRequest(e, refused.req, refused.time).0, e, refused.time, after);
  }

  lemma {:induction false} ArrivalParts(from: real, x: seq<Arrival>, y: seq<Arrival>) returns (end: real)
    requires InOrder(from, x + y)
    ensures InOrder(from, x) && InOrder(end, y) && from <= end && forall k :: 0 <= k < |x| ==> x[k].time <= end
    decreases |x|
  {
    if x == [] {
      assert x + y == y;
      end := from;
    } else {
      assert (x + y)[1..] == x[1..] + y;
      end := ArrivalParts(x[0].time, x[1..], y);
    }
  }

  /** With such rates, over any run, a refused request changes no other reply: without it, all others are the same. */
  lemma {:induction false} RefusedRequestChangesNothing(e: Engine, from: real, before: seq<Arrival>, refused: Arrival,
                                                        after: seq<Arrival>)
    requires AllConfigured(e, from) && InOrder(from, before + ([refused] + after))
    requires AllowRequest(AfterRequests(e, before), refused.req, refused.time).1 != Allowed
    ensures var n := AfterRequests(e, before);
            && Replies(e, before + ([refused] + after))
               == Replies(e, before) + ([AllowRequest(n, refused.req, refused.time).1] + Replies(n, after))
            && Replies(e, before + after) == Replies(e, before) + Replies(n, after)
  {
    var end := ArrivalParts(from, before, [refused] + after);
    StaysAllConfigured(e, from, before, end);
    RefusedNow(AfterRequests(e, before), end, refused, after);
    RepliesConcat(e, before, [refused] + after);
    RepliesConcat(e, before, after);
  }
}
