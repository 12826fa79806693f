/** The resource pool's locked regions: booking, freeing and moving reservations over per-node ledgers,
    and the protocol they form with the requests whose policy is still running. */
module Pools {
  import opened Ledger
  import opened Options
  import opened ReservationIds

  type NodeId = string

  datatype Status = Online | Offline | Degraded | Maintenance

  /** `res` is what is free, `alloc` what is handed out. */
  datatype Node = Node(res: map<RType, real>, alloc: map<RType, real>, status: Status,
                       labels: map<string, string>, tdp: int)

  datatype Reservation = Reservation(id: ResId, node: NodeId, rtype: RType, requirements: map<RType, real>,
                                     amount: real, priority: int, soft: bool, affinity: seq<string>,
                                     antiAffinity: seq<string>, deadline: Option<real>, policy: string)

  datatype Pool = Pool(nodes: map<NodeId, Node>, reserves: map<ResId, Reservation>, pending: seq<Reservation>,
                       policies: set<string>)

  datatype Verdict = Proceed | Queued | NoPolicy | PolicyFailed | NoResource | NodeGone | Booked

  const DEFAULT_POLICY := "default-fairshare"
  const DEADLINE_SLACK := 30.0
  const MAX_MOVABLE_PRIORITY := 5

  /** Composite requirements, or else the single type and amount. */
  function Reqs(r: Reservation): map<RType, real> {
    if |r.requirements| > 0 then r.requirements
    else if r.rtype != "" && r.amount > 0.0 then map[r.rtype := r.amount]
    else map[]
  }

  // ---------- affinity ----------

  function FirstEquals(a: string): (i: nat)
    ensures i <= |a| && '=' !in a[..i] && (i < |a| ==> a[i] == '=')
  {
    if a == "" || a[0] == '=' then 0
    else
      assert forall k :: 0 <= k < FirstEquals(a[1..]) ==> a[1..][..FirstEquals(a[1..])][k] != '=';
      1 + FirstEquals(a[1..])
  }

  predicate Names(a: string, id: NodeId, n: Node) {
    a == id || (var i := FirstEquals(a); i < |a| && a[..i] in n.labels && n.labels[a[..i]] == a[i + 1..])
  }

  predicate Matches(id: NodeId, n: Node, r: Reservation) {
    && (r.affinity == [] || exists a :: a in r.affinity && Names(a, id, n))
    && forall a :: a in r.antiAffinity ==> !Names(a, id, n)
  }

  /** A node a request could go to: online, matching, and listing every required type with enough left. */
  predicate Candidate(id: NodeId, n: Node, req: Reservation) {
    n.status == Online && Matches(id, n, req)
    && forall rt :: rt in Reqs(req) ==> rt in n.res && n.res[rt] >= Reqs(req)[rt]
  }

  // ---------- the locked regions ----------

  function Take(n: Node, reqs: map<RType, real>): Node {
    n.(res := Minus(n.res, reqs), alloc := Plus(n.alloc, reqs))
  }

  function GiveBack(n: Node, reqs: map<RType, real>): Node {
    n.(res := Plus(n.res, reqs), alloc := MinusClamped(n.alloc, reqs))
  }

  function Enqueue(p: Pool, req: Reservation): Pool { p.(pending := p.pending + [req]) }

  function PolicyName(req: Reservation): string {
    if req.policy == "" then DEFAULT_POLICY else req.policy
  }

  /** A request under an id that is not booked; `generated` stands in for a missing one. */
  function Named(p: Pool, req: Reservation, generated: ResId): Reservation {
    req.(id := UniqueId(p.reserves.Keys, if req.id == "" then generated else req.id))
  }

  /** Allocate up to the policy call, for a request under its final id. */
  function Admit(p: Pool, req: Reservation): (Pool, Verdict) {
    var known := PolicyName(req) in p.policies;
    if known && exists id :: id in p.nodes && Candidate(id, p.nodes[id], req) then (p, Proceed)
    else if req.soft then (Enqueue(p, req), Queued)
    else (p, if known then NoResource else NoPolicy)
  }

  /** Allocate after the policy returned an error. */
  function Refuse(p: Pool, req: Reservation): (Pool, Verdict) {
    if req.soft then (Enqueue(p, req), Queued) else (p, PolicyFailed)
  }

  /** Takes the amounts from a node and stores the reservation. */
  function Place(p: Pool, req: Reservation, node: NodeId, stored: Reservation): Pool
    requires node in p.nodes
  {
    p.(nodes := p.nodes[node := Take(p.nodes[node], Reqs(req))], reserves := p.reserves[req.id := stored])
  }

  /** Allocate after the policy chose a node. The program stores the request as it came;
      with `stamps` it would record the chosen node first, as the queue path does. */
  function Book(p: Pool, req: Reservation, node: NodeId, stamps: bool): (Pool, Verdict) {
    if node !in p.nodes then (p, NodeGone)
    else if !Fits(p.nodes[node].res, Reqs(req)) then (p, NoResource)
    else (Place(p, req, node, if stamps then req.(node := node) else req), Booked)
  }

  function Free(p: Pool, id: ResId): Pool {
    if id !in p.reserves then p
    else
      var r := p.reserves[id];
      p.(nodes := if r.node in p.nodes then p.nodes[r.node := GiveBack(p.nodes[r.node], Reqs(r))] else p.nodes,
         reserves := p.reserves - {id})
  }

  function FreeMany(p: Pool, ids: seq<ResId>): Pool {
    if ids == [] then p else Free(FreeMany(p, ids[..|ids| - 1]), ids[|ids| - 1])
  }

  /** What Rebalance and the deadline watcher both check before moving a reservation. */
  predicate CanMove(p: Pool, id: ResId, to: NodeId) {
    && id in p.reserves && to in p.nodes && to != p.reserves[id].node
    && p.nodes[to].status == Online && Fits(p.nodes[to].res, Reqs(p.reserves[id]))
  }

  function Move(p: Pool, id: ResId, to: NodeId): Pool
    requires CanMove(p, id, to)
  {
    var r := p.reserves[id];
    var q := Free(p, id);
    q.(nodes := q.nodes[to := Take(q.nodes[to], Reqs(r))], reserves := q.reserves[id := r.(node := to)])
  }

  lemma FreeFrame(p: Pool, id: ResId)
    requires id in p.reserves
    ensures Free(p, id).nodes.Keys == p.nodes.Keys && Free(p, id).pending == p.pending
    ensures Free(p, id).reserves == p.reserves - {id}
  {
  }

  lemma PlaceFrame(p: Pool, req: Reservation, node: NodeId, stored: Reservation)
    requires node in p.nodes
    ensures Place(p, req, node, stored).nodes.Keys == p.nodes.Keys && Place(p, req, node, stored).pending == p.pending
    ensures Place(p, req, node, stored).reserves == p.reserves[req.id := stored]
  {
  }

  lemma MoveFrame(p: Pool, id: ResId, to: NodeId)
    requires CanMove(p, id, to)
    ensures Move(p, id, to).nodes.Keys == p.nodes.Keys && Move(p, id, to).pending == p.pending
    ensures Move(p, id, to).reserves == p.reserves[id := p.reserves[id].(node := to)]
  {
    FreeFrame(p, id);
    PutBack(p.reserves, id, p.reserves[id].(node := to));
  }

  lemma PutBack<K, V>(m: map<K, V>, k: K, v: V)
    ensures (m - {k})[k := v] == m[k := v]
  {
  }

  /** One queued request of processPendingOnce, with the policy's answer; it is booked or kept. */
  function DrainStep(p: Pool, req: Reservation, answer: Option<NodeId>): (r: (Pool, bool))
    ensures !r.1 ==> r.0 == p
  {
    if PolicyName(req) in p.policies && answer.Some? && answer.value in p.nodes
       && Fits(p.nodes[answer.value].res, Reqs(req))
    then (Place(p, req, answer.value, req.(node := answer.value)), true)
    else (p, false)
  }

  // ---------- ledgers ----------

  /** The amounts of type rt that the stored reservations place on node n. */
  ghost function Amounts(reserves: map<ResId, Reservation>, n: NodeId, rt: RType): map<ResId, real> {
    map id | id in reserves && reserves[id].node == n :: Get(Reqs(reserves[id]), rt)
  }

  ghost function Placed(p: Pool, n: NodeId, rt: RType): real {
    SumOf(Amounts(p.reserves, n, rt))
  }

  /** What is handed out on a node beyond what the stored reservations account for. */
  ghost function Excess(p: Pool, n: NodeId, rt: RType): real
    requires n in p.nodes
  {
    Get(p.nodes[n].alloc, rt) - Placed(p, n, rt)
  }

  ghost function Capacity(p: Pool, n: NodeId, rt: RType): real
    requires n in p.nodes
  {
    Get(p.nodes[n].res, rt) + Get(p.nodes[n].alloc, rt)
  }

  ghost function AmountOn(r: Reservation, n: NodeId, rt: RType): real {
    if r.node == n then Get(Reqs(r), rt) else 0.0
  }

  /** The amounts of a table of reservations with one more, or one fewer, reservation. */
  lemma AmountsWith(rs: map<ResId, Reservation>, r: Reservation, n: NodeId, rt: RType)
    requires r.id !in rs
    ensures r.node == n ==> Amounts(rs[r.id := r], n, rt) == Amounts(rs, n, rt)[r.id := Get(Reqs(r), rt)]
    ensures r.node != n ==> Amounts(rs[r.id := r], n, rt) == Amounts(rs, n, rt)
  {
  }

  lemma AmountsWithout(rs: map<ResId, Reservation>, id: ResId, n: NodeId, rt: RType)
    requires id in rs
    ensures Amounts(rs - {id}, n, rt) == Amounts(rs, n, rt) - {id}
    ensures rs[id].node != n ==> Amounts(rs - {id}, n, rt) == Amounts(rs, n, rt)
  {
  }

  lemma PlacedAdded(p: Pool, q: Pool, r: Reservation, n: NodeId, rt: RType)
    requires r.id !in p.reserves && q.reserves == p.reserves[r.id := r]
    ensures Placed(q, n, rt) == Placed(p, n, rt) + AmountOn(r, n, rt)
  {
    AmountsWith(p.reserves, r, n, rt);
    if r.node == n {
      SumWith(Amounts(p.reserves, n, rt), r.id, Get(Reqs(r), rt));
    }
  }

  lemma PlacedRemoved(p: Pool, q: Pool, id: ResId, n: NodeId, rt: RType)
    requires id in p.reserves && q.reserves == p.reserves - {id}
    ensures Placed(q, n, rt) == Placed(p, n, rt) - AmountOn(p.reserves[id], n, rt)
  {
    AmountsWithout(p.reserves, id, n, rt);
    if p.reserves[id].node == n {
      SumWithout(Amounts(p.reserves, n, rt), id);
    }
  }

  ghost predicate NonNegReserves(p: Pool) {
    forall id :: id in p.reserves ==> NonNeg(Reqs(p.reserves[id]))
  }

  lemma Enough(p: Pool, id: ResId, n: NodeId, rt: RType)
    requires NonNegReserves(p) && id in p.reserves
    ensures AmountOn(p.reserves[id], n, rt) <= Placed(p, n, rt)
  {
    var amounts := Amounts(p.reserves, n, rt);
    if p.reserves[id].node == n {
      SumBounds(amounts, id);
    } else if amounts != map[] {
      SumBounds(amounts, Pick(amounts));
    }
  }

  /** A ledger is sound where nothing is overdrawn and every stored reservation is covered. */
  ghost predicate LedgerOk(p: Pool, stamps: bool, n: NodeId, rt: RType)
    requires n in p.nodes
  {
    && Get(p.nodes[n].res, rt) >= 0.0
    && Excess(p, n, rt) >= 0.0
    && (stamps ==> Excess(p, n, rt) == 0.0)
  }

  ghost predicate Ledgers(p: Pool, stamps: bool) {
    forall n, rt :: n in p.nodes ==> LedgerOk(p, stamps, n, rt)
  }

  lemma Taken(n: Node, reqs: map<RType, real>, rt: RType)
    ensures Get(Take(n, reqs).res, rt) == Get(n.res, rt) - Get(reqs, rt)
    ensures Get(Take(n, reqs).alloc, rt) == Get(n.alloc, rt) + Get(reqs, rt)
  {
  }

  lemma Given(n: Node, reqs: map<RType, real>, rt: RType)
    requires Get(n.alloc, rt) >= Get(reqs, rt)
    ensures Get(GiveBack(n, reqs).res, rt) == Get(n.res, rt) + Get(reqs, rt)
    ensures Get(GiveBack(n, reqs).alloc, rt) == Get(n.alloc, rt) - Get(reqs, rt)
  {
  }

  lemma PlacedNode(p: Pool, req: Reservation, node: NodeId, stored: Reservation, n: NodeId, rt: RType)
    requires node in p.nodes && n in p.nodes
    ensures var m := Place(p, req, node, stored).nodes[n];
            && Get(m.res, rt) == Get(p.nodes[n].res, rt) - (if n == node then Get(Reqs(req), rt) else 0.0)
            && Get(m.alloc, rt) == Get(p.nodes[n].alloc, rt) + (if n == node then Get(Reqs(req), rt) else 0.0)
  {
    if n == node {
      Taken(p.nodes[node], Reqs(req), rt);
    }
  }

  /** Booking moves exactly the request's amounts, on the chosen node only, and keeps the capacity. */
  lemma PlaceLedger(p: Pool, req: Reservation, node: NodeId, stored: Reservation, n: NodeId, rt: RType)
    requires node in p.nodes && n in p.nodes && req.id !in p.reserves
    requires stored == req.(node := stored.node)
    ensures var q := Place(p, req, node, stored);
            && Capacity(q, n, rt) == Capacity(p, n, rt)
            && Get(q.nodes[n].res, rt) == Get(p.nodes[n].res, rt) - (if n == node then Get(Reqs(req), rt) else 0.0)
            && Excess(q, n, rt)
               == Excess(p, n, rt) + (if n == node then Get(Reqs(req), rt) else 0.0) - AmountOn(stored, n, rt)
  {
    PlacedAdded(p, Place(p, req, node, stored), stored, n, rt);
    PlacedNode(p, req, node, stored, n, rt);
  }

  lemma FreedNode(p: Pool, id: ResId, n: NodeId, rt: RType)
    requires id in p.reserves && n in p.nodes
    requires Get(p.nodes[n].alloc, rt) >= AmountOn(p.reserves[id], n, rt)
    ensures var q := Free(p, id);
            && n in q.nodes
            && Get(q.nodes[n].res, rt) == Get(p.nodes[n].res, rt) + AmountOn(p.reserves[id], n, rt)
            && Get(q.nodes[n].alloc, rt) == Get(p.nodes[n].alloc, rt) - AmountOn(p.reserves[id], n, rt)
  {
    var r := p.reserves[id];
    if r.node == n {
      Given(p.nodes[n], Reqs(r), rt);
    }
  }

  /** Freeing gives back exactly what the reservation holds: the clamp at zero never acts. */
  lemma FreeLedger(p: Pool, id: ResId, n: NodeId, rt: RType)
    requires id in p.reserves && n in p.nodes && NonNegReserves(p) && Excess(p, n, rt) >= 0.0
    ensures var q := Free(p, id);
            && n in q.nodes
            && Capacity(q, n, rt) == Capacity(p, n, rt)
            && Get(q.nodes[n].res, rt) == Get(p.nodes[n].res, rt) + AmountOn(p.reserves[id], n, rt)
            && Get(q.nodes[n].alloc, rt) == Get(p.nodes[n].alloc, rt) - AmountOn(p.reserves[id], n, rt)
            && Excess(q, n, rt) == Excess(p, n, rt)
  {
    assert AmountOn(p.reserves[id], n, rt) <= Placed(p, n, rt) by {
      Enough(p, id, n, rt);
    }
    FreedNode(p, id, n, rt);
    PlacedRemoved(p, Free(p, id), id, n, rt);
  }

  lemma MoveLedger(p: Pool, id: ResId, to: NodeId, n: NodeId, rt: RType)
    requires CanMove(p, id, to) && n in p.nodes && NonNegReserves(p) && Excess(p, n, rt) >= 0.0
    requires p.reserves[id].id == id
    ensures var q := Move(p, id, to);
            && n in q.nodes
            && Capacity(q, n, rt) == Capacity(p, n, rt)
            && Get(q.nodes[n].res, rt) == Get(p.nodes[n].res, rt) + AmountOn(p.reserves[id], n, rt)
                                          - (if n == to then Get(Reqs(p.reserves[id]), rt) else 0.0)
            && Excess(q, n, rt) == Excess(p, n, rt)
  {
    var r := p.reserves[id];
    FreeLedger(p, id, n, rt);
    PlaceLedger(Free(p, id), r, to, r.(node := to), n, rt);
  }

  /** From p to q the capacity of n stays, nothing is overdrawn, and the excess grows by delta. */
  ghost predicate Balances(p: Pool, q: Pool, n: NodeId, rt: RType, delta: real)
    requires n in p.nodes
  {
    && n in q.nodes
    && Capacity(q, n, rt) == Capacity(p, n, rt)
    && Get(q.nodes[n].res, rt) >= 0.0
    && Excess(q, n, rt) == Excess(p, n, rt) + delta
  }

  lemma PlaceBalances(p: Pool, req: Reservation, node: NodeId, stored: Reservation, n: NodeId, rt: RType)
    requires node in p.nodes && n in p.nodes && req.id !in p.reserves && Get(p.nodes[n].res, rt) >= 0.0
    requires stored == req.(node := stored.node) && Fits(p.nodes[node].res, Reqs(req))
    requires stored.node == node || stored.node !in p.nodes
    ensures Balances(p, Place(p, req, node, stored), n, rt,
                     if n == node && stored.node != node then Get(Reqs(req), rt) else 0.0)
  {
    PlaceLedger(p, req, node, stored, n, rt);
  }

  lemma FreeBalances(p: Pool, id: ResId, n: NodeId, rt: RType)
    requires n in p.nodes && NonNegReserves(p) && Excess(p, n, rt) >= 0.0 && Get(p.nodes[n].res, rt) >= 0.0
    ensures Balances(p, Free(p, id), n, rt, 0.0)
  {
    if id in p.reserves {
      FreeLedger(p, id, n, rt);
    }
  }

  lemma MoveBalances(p: Pool, id: ResId, to: NodeId, n: NodeId, rt: RType)
    requires CanMove(p, id, to) && n in p.nodes && NonNegReserves(p) && p.reserves[id].id == id
    requires Excess(p, n, rt) >= 0.0 && Get(p.nodes[n].res, rt) >= 0.0
    ensures Balances(p, Move(p, id, to), n, rt, 0.0)
  {
    MoveLedger(p, id, to, n, rt);
  }

  // ---------- the booking of Allocate as it is written ----------

  /** The program's own Allocate keeps an exact ledger exact just when the request already named the chosen
      node, or asks for nothing: it stores the request without recording the choice. */
  lemma BookKeepsExactIff(p: Pool, req: Reservation, node: NodeId)
    requires Ledgers(p, true) && req.id !in p.reserves && NonNeg(Reqs(req))
    requires node in p.nodes && Fits(p.nodes[node].res, Reqs(req))
    ensures var q := Book(p, req, node, false).0;
            Ledgers(q, true) <==> req.node == node || forall rt :: rt in Reqs(req) ==> Reqs(req)[rt] == 0.0
  {
    var q := Book(p, req, node, false).0;
    forall n, rt | n in p.nodes
      ensures LedgerOk(q, true, n, rt)
          <==> (n == node ==> req.node == node || Get(Reqs(req), rt) == 0.0)
               && (n == req.node ==> req.node == node || Get(Reqs(req), rt) == 0.0)
    {
      assert LedgerOk(p, true, n, rt);
      PlaceLedger(p, req, node, req, n, rt);
    }
    if rt :| rt in Reqs(req) && Reqs(req)[rt] != 0.0 && req.node != node {
      assert !LedgerOk(q, true, node, rt);
    }
  }

  /** Such a loss happens with an ordinary request on an idle node. */
  lemma AllocateLeaks()
    ensures exists p: Pool, req: Reservation :: LeakedBy(p, req, "n")
  {
    var node := Node(map["CPU" := 1.0], map["CPU" := 0.0], Online, map[], 0);
    var p := Pool(map["n" := node], map[], [], {DEFAULT_POLICY});
    var req := Reservation("r", "", "CPU", map[], 1.0, 0, false, [], [], None, "");
    assert Reqs(req) == map["CPU" := 1.0];
    assert Admit(p, req).1 == Proceed by {
      assert Candidate("n", node, req);
    }
    var q := Book(p, req, "n", false).0;
    assert q.nodes["n"].res == map["CPU" := 0.0];
    assert Free(q, "r").nodes == q.nodes && Free(q, "r").reserves == map[];
    assert LeakedBy(p, req, "n");
  }

  /** Allocate books the request on the node; freeing it again does not give the capacity back. */
  ghost predicate LeakedBy(p: Pool, req: Reservation, node: NodeId) {
    && node in p.nodes && Admit(p, req).1 == Proceed && Book(p, req, node, false).1 == Booked
    && var q := Free(Book(p, req, node, false).0, req.id);
       q.reserves == map[] && node in q.nodes
       && Get(p.nodes[node].res, "CPU") == 1.0 && Get(q.nodes[node].res, "CPU") == 0.0
  }

  /** Booking under an id that is already booked drops the earlier reservation without giving its amounts back,
      so ids must differ among booked, queued and in-flight requests. */
  lemma RebookingLeaks(p: Pool, req: Reservation, node: NodeId, n: NodeId, rt: RType)
    requires node in p.nodes && n in p.nodes && req.id in p.reserves
    ensures Excess(Place(p, req, node, req.(node := node)), n, rt)
         == Excess(p, n, rt) + AmountOn(p.reserves[req.id], n, rt)
  {
    var stored := req.(node := node);
    PlacedNode(p, req, node, stored, n, rt);
    PlacedReplaced(p, Place(p, req, node, stored), stored, n, rt);
  }

  lemma PlacedReplaced(p: Pool, q: Pool, r: Reservation, n: NodeId, rt: RType)
    requires r.id in p.reserves && q.reserves == p.reserves[r.id := r]
    ensures Placed(q, n, rt) == Placed(p, n, rt) - AmountOn(p.reserves[r.id], n, rt) + AmountOn(r, n, rt)
  {
    var without := p.(reserves := p.reserves - {r.id});
    PlacedRemoved(p, without, r.id, n, rt);
    PutBack(p.reserves, r.id, r);
    PlacedAdded(without, q, r, n, rt);
  }
}
