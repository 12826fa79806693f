/** Admission, booking, freeing and moving in the terms of a request's own fields, and the run invariant over them. */
module Bookings {
  import opened Ledger
  import opened Pools
  import opened PoolRuns
  import opened PoolManager
  import opened Options
  import opened ReservationIds

  /** A type that the request needs: one of its requirements, or its single type if it has none. */
  predicate Asks(r: Reservation, rt: RType) {
    if |r.requirements| > 0 then rt in r.requirements
    else rt == r.rtype && r.rtype != "" && r.amount > 0.0
  }

  /** How much of it. */
  function Asked(r: Reservation, rt: RType): real {
    if !Asks(r, rt) then 0.0
    else if |r.requirements| > 0 then r.requirements[rt]
    else r.amount
  }

  lemma AskedIsRequired(r: Reservation, rt: RType)
    ensures Asks(r, rt) <==> rt in Reqs(r)
    ensures Asked(r, rt) == Get(Reqs(r), rt)
  {
  }

  /** At least the needed amount of every needed type, a type that is not listed counting as nothing. */
  ghost predicate Enough(avail: map<RType, real>, r: Reservation) {
    forall rt :: Asks(r, rt) ==> Get(avail, rt) >= Asked(r, rt)
  }

  lemma EnoughIsFits(avail: map<RType, real>, r: Reservation)
    ensures Fits(avail, Reqs(r)) <==> Enough(avail, r)
  {
    forall rt
      ensures Asks(r, rt) <==> rt in Reqs(r)
      ensures Asked(r, rt) == Get(Reqs(r), rt)
    {
      AskedIsRequired(r, rt);
    }
  }

  // ---------- who may go where ----------

  /** The first '=' of k + "=" + v is the one between them. */
  lemma {:induction false} SplitAtEquals(k: string, v: string)
    requires '=' !in k
    ensures FirstEquals(k + "=" + v) == |k|
  {
    var a := k + "=" + v;
    if k == "" {
      assert a[0] == '=';
    } else {
      assert a[0] == k[0] && a[1..] == k[1..] + "=" + v;
      SplitAtEquals(k[1..], v);
    }
  }

  /** An affinity entry is a node's name, or a label and its value on both sides of the first '='. */
  lemma NamesExactly(a: string, id: NodeId, n: Node)
    ensures Names(a, id, n)
        <==> a == id || exists k, v :: '=' !in k && a == k + "=" + v && k in n.labels && n.labels[k] == v
  {
    var i := FirstEquals(a);
    if i < |a| {
      assert a == a[..i] + "=" + a[i + 1..];
    }
    forall k, v | '=' !in k && a == k + "=" + v
      ensures i == |k| && a[..i] == k && a[i + 1..] == v
    {
      SplitAtEquals(k, v);
    }
  }

  lemma MatchesExactly(id: NodeId, n: Node, r: Reservation)
    ensures Matches(id, n, r)
        <==> (r.affinity == [] || exists i :: 0 <= i < |r.affinity| && Names(r.affinity[i], id, n))
             && (forall i :: 0 <= i < |r.antiAffinity| ==> !Names(r.antiAffinity[i], id, n))
  {
  }

  /** The node is online, matches, and lists every needed type with at least the amount. */
  predicate CouldTake(id: NodeId, n: Node, req: Reservation) {
    n.status == Online && Matches(id, n, req)
    && forall rt :: rt in n.res.Keys + req.requirements.Keys + {req.rtype} && Asks(req, rt) ==>
         rt in n.res && n.res[rt] >= Asked(req, rt)
  }

  lemma CandidateExactly(id: NodeId, n: Node, req: Reservation)
    ensures Candidate(id, n, req) <==> CouldTake(id, n, req)
  {
    forall rt
      ensures Asks(req, rt) <==> rt in Reqs(req)
      ensures Asked(req, rt) == Get(Reqs(req), rt)
    {
      AskedIsRequired(req, rt);
    }
  }

  /** The first phase of Allocate: a request goes on exactly if its policy exists and some node could take it;
      otherwise a soft one is queued and any other refused. */
  lemma AdmitExactly(p: Pool, req: Reservation)
    ensures var (q, v) := Admit(p, req);
            var known := (if req.policy == "" then "default-fairshare" else req.policy) in p.policies;
            && (v == Proceed <==> known && exists id :: id in p.nodes && CouldTake(id, p.nodes[id], req))
            && (v == Proceed ==> q == p)
            && (v != Proceed && req.soft ==> v == Queued && q == p.(pending := p.pending + [req]))
            && (v != Proceed && !req.soft ==> q == p && v == if known then NoResource else NoPolicy)
  {
    forall id | id in p.nodes
      ensures Candidate(id, p.nodes[id], req) <==> CouldTake(id, p.nodes[id], req)
    {
      CandidateExactly(id, p.nodes[id], req);
    }
  }

  /** After an error of the policy. */
  lemma RefuseExactly(p: Pool, req: Reservation)
    ensures Refuse(p, req) == if req.soft then (p.(pending := p.pending + [req]), Queued) else (p, PolicyFailed)
  {
  }

  // ---------- ledgers ----------

  /** From p to q the request's amount of one type goes from the free to the handed-out side of its node. */
  ghost predicate TakesAt(p: Pool, q: Pool, req: Reservation, node: NodeId, n: NodeId, rt: RType)
    requires n in p.nodes
  {
    var amount := if n == node then Asked(req, rt) else 0.0;
    && n in q.nodes
    && Get(q.nodes[n].res, rt) == Get(p.nodes[n].res, rt) - amount
    && Get(q.nodes[n].alloc, rt) == Get(p.nodes[n].alloc, rt) + amount
    && q.nodes[n].status == p.nodes[n].status && q.nodes[n].labels == p.nodes[n].labels
  }

  lemma PlaceMoves(p: Pool, req: Reservation, node: NodeId, stored: Reservation, n: NodeId, rt: RType)
    requires node in p.nodes && n in p.nodes
    ensures TakesAt(p, Place(p, req, node, stored), req, node, n, rt)
  {
    AskedIsRequired(req, rt);
    PlacedNode(p, req, node, stored, n, rt);
  }

  /** The last phase of Allocate books exactly if the node is still there with enough of everything needed. It then
      takes the request's own amounts from that node, and nothing else; the request is stored as it came, or with
      the node recorded. */
  lemma BookExactly(p: Pool, req: Reservation, node: NodeId, stamps: bool)
    ensures var (q, v) := Book(p, req, node, stamps);
            && (v == Booked <==>
                  node in p.nodes && Enough(p.nodes[node].res, req))
            && (v == Booked ==>
                  && q.nodes.Keys == p.nodes.Keys && q.pending == p.pending && q.policies == p.policies
                  && q.reserves == p.reserves[req.id := if stamps then req.(node := node) else req]
                  && Takes(p, q, req, node))
            && (v != Booked ==> q == p && v == if node in p.nodes then NoResource else NodeGone)
  {
    if node in p.nodes {
      EnoughIsFits(p.nodes[node].res, req);
      var stored := if stamps then req.(node := node) else req;
      PlaceFrame(p, req, node, stored);
      BookMoves(p, req, node, stored);
    }
  }

  /** The request's own amounts leave the free side of the chosen node for the other. */
  ghost predicate Takes(p: Pool, q: Pool, req: Reservation, node: NodeId) {
    forall n, rt :: n in p.nodes ==> TakesAt(p, q, req, node, n, rt)
  }

  lemma BookMoves(p: Pool, req: Reservation, node: NodeId, stored: Reservation)
    requires node in p.nodes
    ensures Takes(p, Place(p, req, node, stored), req, node)
  {
    var q := Place(p, req, node, stored);
    forall n, rt | n in p.nodes
      ensures TakesAt(p, q, req, node, n, rt)
    {
      PlaceMoves(p, req, node, stored, n, rt);
    }
  }

  /** A queued request is booked exactly if its policy exists and names a node with enough of everything needed. */
  lemma DrainStepExactly(p: Pool, req: Reservation, answer: Option<NodeId>)
    ensures var (q, booked) := DrainStep(p, req, answer);
            && (booked <==>
                  && (if req.policy == "" then "default-fairshare" else req.policy) in p.policies
                  && answer.Some? && answer.value in p.nodes && Enough(p.nodes[answer.value].res, req))
            && (booked ==> q == Book(p, req, answer.value, true).0)
            && (!booked ==> q == p)
  {
    if answer.Some? && answer.value in p.nodes {
      EnoughIsFits(p.nodes[answer.value].res, req);
    }
  }

  /** A node that gets amounts back, with the handed-out side clamped at zero. */
  lemma GivenBack(m: Node, r: Reservation, rt: RType)
    ensures Get(GiveBack(m, Reqs(r)).res, rt) == Get(m.res, rt) + Asked(r, rt)
    ensures Get(GiveBack(m, Reqs(r)).alloc, rt)
         == if !Asks(r, rt) then Get(m.alloc, rt)
            else if Get(m.alloc, rt) >= Asked(r, rt) then Get(m.alloc, rt) - Asked(r, rt) else 0.0
  {
    AskedIsRequired(r, rt);
  }

  /** Freeing gives the reservation's own amounts back to the node it is stored under, and to no other. */
  lemma FreeExactly(p: Pool, id: ResId, n: NodeId, rt: RType)
    requires id in p.reserves && n in p.nodes
    ensures var q, r, m := Free(p, id), p.reserves[id], p.nodes[n];
            && q.reserves == p.reserves - {id} && q.pending == p.pending && n in q.nodes
            && (n != r.node ==> q.nodes[n] == m)
            && (n == r.node ==>
                  && Get(q.nodes[n].res, rt) == Get(m.res, rt) + Asked(r, rt)
                  && Get(q.nodes[n].alloc, rt)
                     == if !Asks(r, rt) then Get(m.alloc, rt)
                        else if Get(m.alloc, rt) >= Asked(r, rt) then Get(m.alloc, rt) - Asked(r, rt) else 0.0)
  {
    FreeFrame(p, id);
    GivenBack(p.nodes[n], p.reserves[id], rt);
  }

  lemma FreeUnknown(p: Pool, id: ResId)
    requires id !in p.reserves
    ensures Free(p, id) == p
  {
  }

  /** A reservation may move exactly to another online node with enough of everything it needs. */
  lemma CanMoveExactly(p: Pool, id: ResId, to: NodeId)
    ensures CanMove(p, id, to)
        <==> id in p.reserves && to in p.nodes && to != p.reserves[id].node && p.nodes[to].status == Online
             && Enough(p.nodes[to].res, p.reserves[id])
  {
    if id in p.reserves && to in p.nodes {
      EnoughIsFits(p.nodes[to].res, p.reserves[id]);
    }
  }

  // ---------- runs ----------

  /** The model's runs ask no more of the callers than amounts that are not negative (none at all is allowed), an id
      that no open request has and, where the chosen node is not recorded, no node named in advance. */
  lemma StartsExactly(s: State, req: Reservation)
    ensures TryStart(s, req).Some?
        <==> (forall rt :: Asks(req, rt) ==> Asked(req, rt) >= 0.0)
             && (req.id !in s.seen || req.id in s.closed) && (s.stamps || req.node == "")
  {
    forall rt
      ensures Asks(req, rt) <==> rt in Reqs(req)
      ensures Asked(req, rt) == Get(Reqs(req), rt)
    {
      AskedIsRequired(req, rt);
    }
  }

  /** A node may join with any amounts that are not negative, also with none, and nothing handed out. */
  lemma JoinsExactly(s: State, id: NodeId, n: Node)
    ensures Step(s, AddNode(id, n)).Some?
        <==> id !in s.pool.nodes && (id != "" || s.stamps)
             && (forall rt :: Get(n.res, rt) >= 0.0) && (forall rt :: Get(n.alloc, rt) == 0.0)
  {
    forall rt
      ensures rt in n.res ==> Get(n.res, rt) == n.res[rt]
      ensures rt in n.alloc ==> Get(n.alloc, rt) == n.alloc[rt]
    {
    }
  }

  /** A node's status, and the policies, may change at any moment, and then nothing else does. */
  lemma SettingsExactly(s: State, id: NodeId, status: Status, policies: set<string>)
    requires id in s.pool.nodes
    ensures var r := Step(s, SetStatus(id, status));
            r.Some? && r.value.pool.nodes[id := s.pool.nodes[id]] == s.pool.nodes && id in r.value.pool.nodes
            && r.value.pool.nodes[id] == s.pool.nodes[id].(status := status)
            && r.value.(pool := s.pool) == s && r.value.pool.(nodes := s.pool.nodes) == s.pool
    ensures Step(s, SetPolicies(policies)) == Some(s.(pool := s.pool.(policies := policies)))
  {
  }

  /** A request goes in under the id it asks for, or the one generated for it if it asks for none, or if that is booked
      under the first numeric suffix of it that is not; nothing else of it changes. */
  lemma NamedExactly(p: Pool, req: Reservation, generated: ResId)
    ensures var n, want := Named(p, req, generated), if req.id == "" then generated else req.id;
            && n == req.(id := n.id) && n.id !in p.reserves
            && (want !in p.reserves ==> n.id == want)
            && (want in p.reserves ==>
                  exists k: nat :: k >= 1 && n.id == want + "-" + Digits(k) && TakenBefore(p.reserves.Keys, want, k))
  {
    var want := if req.id == "" then generated else req.id;
    UniqueIdIsFree(p.reserves.Keys, want);
    FirstFreeIs(p.reserves.Keys, want, 1);
    if want in p.reserves {
      var k := FirstFree(p.reserves.Keys, want, 1);
      forall j | 1 <= j < k
        ensures want + "-" + Digits(j) in p.reserves.Keys
      {
        assert Suffixed(want, j) in p.reserves.Keys;
      }
      assert TakenBefore(p.reserves.Keys, want, k);
    }
  }

  predicate TakenBefore(taken: set<ResId>, want: ResId, k: nat) {
    forall j :: 1 <= j < k ==> want + "-" + Digits(j) in taken
  }

  /** An error of the policy ends the call: a soft request is queued then, any other closed. */
  lemma PolicyErrorEnds(s: State, id: ResId)
    requires id in s.inflight
    ensures var req := s.inflight[id];
            Step(s, PolicyError(id))
            == Some(s.(inflight := s.inflight - {id},
                       pool := if req.soft then s.pool.(pending := s.pool.pending + [req]) else s.pool,
                       closed := s.closed + if req.soft then {} else {id}))
  {
  }

  function Releases(ids: seq<ResId>): (r: seq<Action>)
    ensures |r| == |ids|
  {
    if ids == [] then [] else Releases(ids[..|ids| - 1]) + [Release(ids[|ids| - 1])]
  }

  lemma ReleaseStep(s: State, id: ResId)
    ensures Step(s, Release(id)).Some? && Step(s, Release(id)).value.pool == Free(s.pool, id)
  {
  }

  /** Freeing a list of ids is a run that releases one after the other. */
  lemma {:induction false} FreeManyIsARun(s: State, ids: seq<ResId>)
    ensures Run(s, Releases(ids)).Some?
    ensures Run(s, Releases(ids)).value.pool == FreeMany(s.pool, ids)
  {
    if ids != [] {
      var k := |ids| - 1;
      FreeManyIsARun(s, ids[..k]);
      assert Releases(ids)[..k] == Releases(ids[..k]);
      ReleaseStep(Run(s, Releases(ids[..k])).value, ids[k]);
    }
  }

  /** No reservation under one of the ids is left, and every other one is. */
  lemma {:induction false} FreeManyExactly(p: Pool, ids: seq<ResId>)
    ensures FreeMany(p, ids).reserves == map id | id in p.reserves && id !in ids :: p.reserves[id]
  {
    if ids != [] {
      var k := |ids| - 1;
      FreeManyExactly(p, ids[..k]);
      FreeReserves(FreeMany(p, ids[..k]), ids[k]);
      assert ids == ids[..k] + [ids[k]];
    }
  }

  lemma FreeReserves(p: Pool, id: ResId)
    ensures Free(p, id).reserves == p.reserves - {id}
  {
  }

  /** What the stored reservations ask for on node n, by their own fields. */
  ghost function AskedOn(reserves: map<ResId, Reservation>, n: NodeId, rt: RType): map<ResId, real> {
    map id | id in reserves && reserves[id].node == n :: Asked(reserves[id], rt)
  }

  lemma AskedOnIsAmounts(reserves: map<ResId, Reservation>, n: NodeId, rt: RType)
    ensures AskedOn(reserves, n, rt) == Amounts(reserves, n, rt)
  {
    forall id | id in reserves
      ensures Asked(reserves[id], rt) == Get(Reqs(reserves[id]), rt)
    {
      AskedIsRequired(reserves[id], rt);
    }
  }

  /** What one step hands out on n without recording it. */
  lemma UnrecordedExactly(s: State, a: Action, n: NodeId, rt: RType)
    requires n in s.pool.nodes && Step(s, a).Some?
    ensures Unrecorded(s, a, n, rt)
         == if a.FinishAllocate? && !s.stamps && a.node == n && Enough(s.pool.nodes[n].res, s.inflight[a.id])
            then Asked(s.inflight[a.id], rt) else 0.0
  {
    if a.FinishAllocate? {
      EnoughIsFits(s.pool.nodes[n].res, s.inflight[a.id]);
      AskedIsRequired(s.inflight[a.id], rt);
    }
  }

  /** In every run, what is handed out on a node is what its reservations ask for, by their own fields, and what
      Allocate booked there without recording it: nothing, if it records the chosen node. */
  lemma {:induction false} HandedOutIsAsked(stamps: bool, actions: seq<Action>, s: State, n: NodeId, rt: RType)
    requires Reaches(stamps, actions, s) && n in s.pool.nodes
    ensures Get(s.pool.nodes[n].res, rt) >= 0.0
    ensures Get(s.pool.nodes[n].alloc, rt)
         == SumOf(AskedOn(s.pool.reserves, n, rt)) + Leaked(Initial(stamps), actions, n, rt)
    ensures Leaked(Initial(stamps), actions, n, rt) >= 0.0
    ensures stamps ==> Leaked(Initial(stamps), actions, n, rt) == 0.0
  {
    LedgersHold(stamps, actions, s, n, rt);
    ExcessIsLeaked(stamps, actions, s, n, rt);
    AskedOnIsAmounts(s.pool.reserves, n, rt);
  }

  // ---------- what moves in a pass ----------

  /** Where a pass may move a reservation: another online node with enough of everything it needs, which for a
      rebalancing must also match. */
  ghost predicate CouldMove(p: Pool, r: Reservation, reason: Reason, to: NodeId) {
    && to in p.nodes && to != r.node && p.nodes[to].status == Online
    && Enough(p.nodes[to].res, r)
    && (reason.Overload? ==> Matches(to, p.nodes[to], r))
  }

  lemma TargetExactly(p: Pool, id: ResId, reason: Reason, to: NodeId)
    requires id in p.reserves
    ensures Target(p, id, reason, to) <==> CouldMove(p, p.reserves[id], reason, to)
  {
    CanMoveExactly(p, id, to);
  }

  /** A reservation that a pass looks at moves exactly if it is due and some node could take it: due are, for a node
      overloaded, the soft reservations on it of priority at most 5, and for the deadline watcher those with less than
      30 seconds left. */
  lemma VisitExactly(p: Pool, v: Visit)
    requires Rightly(p, v)
    ensures v.id in p.reserves
    ensures var r := p.reserves[v.id];
            var due := match v.reason
                       case Overload(src) => r.node == src && r.soft && r.priority <= 5
                       case Deadline(now) => r.deadline.Some? && r.deadline.value - now < 30.0;
            && (v.to.Some? <==> due && exists to :: to in p.nodes && CouldMove(p, r, v.reason, to))
            && (v.to.Some? ==> CouldMove(p, r, v.reason, v.to.value))
  {
    forall to
      ensures Target(p, v.id, v.reason, to) <==> CouldMove(p, p.reserves[v.id], v.reason, to)
    {
      TargetExactly(p, v.id, v.reason, to);
    }
  }

  /** A node counts as overloaded exactly if four fifths or more of what it lists is handed out. */
  lemma OverloadedExactly(nodes: map<NodeId, Node>, id: NodeId)
    requires id in nodes
    ensures var n := nodes[id];
            var used := SumOf(map rt | rt in n.res :: Get(n.alloc, rt));
            var free := SumOf(map rt | rt in n.res :: n.res[rt]);
            id in OverloadedNodes(nodes) <==> used + free > 0.0 && 5.0 * used >= 4.0 * (used + free)
  {
    var n := nodes[id];
    SumsAdd(map rt | rt in n.res :: Get(n.alloc, rt), map rt | rt in n.res :: n.res[rt],
            map rt | rt in n.res :: n.res[rt] + Get(n.alloc, rt));
    var used := SumOf(map rt | rt in n.res :: Get(n.alloc, rt));
    var total := SumOf(map rt | rt in n.res :: n.res[rt] + Get(n.alloc, rt));
    if total > 0.0 {
      FourFifths(used, total);
    }
  }

  lemma FourFifths(used: real, total: real)
    requires total > 0.0
    ensures used / total >= 0.8 <==> 5.0 * used >= 4.0 * total
  {
    assert used / total * total == used;
  }

  lemma {:induction false} SumsAdd<K>(a: map<K, real>, b: map<K, real>, c: map<K, real>)
    requires a.Keys == b.Keys == c.Keys && forall k :: k in c ==> c[k] == b[k] + a[k]
    ensures SumOf(c) == SumOf(a) + SumOf(b)
  {
    if c == map[] {
      assert a == map[] && b == map[];
    } else {
      var k := Pick(c);
      SumWithout(a, k);
      SumWithout(b, k);
      SumsAdd(a - {k}, b - {k}, c - {k});
    }
  }
}
