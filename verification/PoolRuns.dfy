/** Every run of the resource pool: any number of Allocate calls between their locked phases, any number of
    queue drains under way, and frees and moves at any moment, with any answers from the policies. */
module PoolRuns {
  import opened Ledger
  import opened Pools
  import opened Options
  import opened ReservationIds

  /** One processPendingOnce call: what it has yet to try and what it will put back. */
  datatype Drain = Drain(todo: seq<Reservation>, left: seq<Reservation>)

  /** `seen` and `closed` are history: the last request admitted under each id, and the ids of those freed
      or finally refused. */
  datatype State = State(
    pool: Pool,
    stamps: bool,
    inflight: map<ResId, Reservation>,
    drains: seq<Drain>,
    seen: map<ResId, Reservation>,
    closed: set<ResId>)

  datatype Action =
    | AddNode(id: NodeId, n: Node)
    | SetStatus(id: NodeId, status: Status)
    | SetPolicies(policies: set<string>)
    | StartAllocate(wanted: Reservation, generated: ResId)
    | PolicyError(id: ResId)
    | FinishAllocate(id: ResId, node: NodeId)
    | Release(id: ResId)
    | Relocate(id: ResId, to: NodeId)
    | BeginDrain
    | DrainOne(d: nat, answer: Option<NodeId>)
    | EndDrain(d: nat)

  function Initial(stamps: bool): State {
    State(Pool(map[], map[], [], {}), stamps, map[], [], map[], {})
  }

  /** A new node hands out nothing yet. */
  predicate Unused(n: Node) {
    (forall rt :: rt in n.res ==> n.res[rt] >= 0.0) && forall rt :: rt in n.alloc ==> n.alloc[rt] == 0.0
  }

  /** What callers of Allocate owe: amounts that are not negative, an id that no open request has and,
      where the chosen node is not recorded, no node named in advance. */
  predicate Acceptable(s: State, req: Reservation) {
    && (forall rt :: rt in Reqs(req) ==> Reqs(req)[rt] >= 0.0)
    && (req.id in s.seen ==> req.id in s.closed)
    && (s.stamps || req.node == "")
  }

  /** The request after a verdict that ends its Allocate call. */
  function Settle(s: State, p: Pool, id: ResId, v: Verdict): State {
    s.(pool := p, inflight := s.inflight - {id},
       closed := s.closed + if v == Queued || v == Booked then {} else {id})
  }

  /** The request is open from now on, also if an earlier one under its id is closed. */
  function Opened(s: State, req: Reservation): State {
    s.(seen := s.seen[req.id := req], closed := s.closed - {req.id})
  }

  function TryStart(s: State, req: Reservation): Option<State> {
    if !Acceptable(s, req) then None
    else
      var (p, v) := Admit(s.pool, req);
      var t := Opened(s, req);
      if v == Proceed then Some(t.(inflight := t.inflight[req.id := req])) else Some(Settle(t, p, req.id, v))
  }

  function TryPolicyError(s: State, id: ResId): Option<State> {
    if id !in s.inflight then None
    else
      var (p, v) := Refuse(s.pool, s.inflight[id]);
      Some(Settle(s, p, id, v))
  }

  function TryFinish(s: State, id: ResId, node: NodeId): Option<State> {
    if id !in s.inflight then None
    else
      var (p, v) := Book(s.pool, s.inflight[id], node, s.stamps);
      Some(Settle(s, p, id, v))
  }

  function TryDrainOne(s: State, d: nat, answer: Option<NodeId>): Option<State> {
    if d >= |s.drains| || s.drains[d].todo == [] then None
    else
      var req := s.drains[d].todo[0];
      var (p, booked) := DrainStep(s.pool, req, answer);
      Some(s.(pool := p, drains := s.drains[d := Drain(s.drains[d].todo[1..],
                                                       s.drains[d].left + if booked then [] else [req])]))
  }

  function TryEndDrain(s: State, d: nat): Option<State> {
    if d >= |s.drains| || s.drains[d].todo != [] then None
    else Some(s.(pool := s.pool.(pending := s.pool.pending + s.drains[d].left), drains := s.drains[d := Drain([], [])]))
  }

  /** One locked region, or None where it cannot happen. */
  function Step(s: State, a: Action): Option<State> {
    match a
    case AddNode(id, n) =>
      if id in s.pool.nodes || !Unused(n) || (id == "" && !s.stamps) then None
      else Some(s.(pool := s.pool.(nodes := s.pool.nodes[id := n])))
    case SetStatus(id, st) =>
      if id !in s.pool.nodes then None
      else Some(s.(pool := s.pool.(nodes := s.pool.nodes[id := s.pool.nodes[id].(status := st)])))
    case SetPolicies(policies) => Some(s.(pool := s.pool.(policies := policies)))
    case StartAllocate(wanted, generated) => TryStart(s, Named(s.pool, wanted, generated))
    case PolicyError(id) => TryPolicyError(s, id)
    case FinishAllocate(id, node) => TryFinish(s, id, node)
    case Release(id) =>
      Some(s.(pool := Free(s.pool, id), closed := s.closed + if id in s.pool.reserves then {id} else {}))
    case Relocate(id, to) => if CanMove(s.pool, id, to) then Some(s.(pool := Move(s.pool, id, to))) else None
    case BeginDrain =>
      if s.pool.pending == [] then None
      else Some(s.(pool := s.pool.(pending := []), drains := s.drains + [Drain(s.pool.pending, [])]))
    case DrainOne(d, answer) => TryDrainOne(s, d, answer)
    case EndDrain(d) => TryEndDrain(s, d)
  }

  function Run(s: State, actions: seq<Action>): Option<State> {
    if actions == [] then Some(s)
    else match Run(s, actions[..|actions| - 1])
      case None => None
      case Some(r) => Step(r, actions[|actions| - 1])
  }

  // ---------- where requests are ----------

  function CountIn(rs: seq<Reservation>, x: ResId): nat {
    if rs == [] then 0 else (if rs[0].id == x then 1 else 0) + CountIn(rs[1..], x)
  }

  function InDrains(drains: seq<Drain>, x: ResId): nat {
    if drains == [] then 0
    else CountIn(drains[0].todo, x) + CountIn(drains[0].left, x) + InDrains(drains[1..], x)
  }

  function Has(m: map<ResId, Reservation>, x: ResId): nat { if x in m then 1 else 0 }

  /** How many places hold request x: the queue, Allocate calls, drains and the booked reservations. */
  function Held(s: State, x: ResId): nat {
    CountIn(s.pool.pending, x) + Has(s.inflight, x) + InDrains(s.drains, x) + Has(s.pool.reserves, x)
  }

  ghost predicate HeldOk(s: State, x: ResId) {
    Held(s, x) == if x in s.seen && x !in s.closed then 1 else 0
  }

  lemma {:induction false} CountAppend(a: seq<Reservation>, b: seq<Reservation>, x: ResId)
    ensures CountIn(a + b, x) == CountIn(a, x) + CountIn(b, x)
  {
    if a == [] {
      assert a + b == b;
    } else {
      CountAppend(a[1..], b, x);
      assert (a + b)[1..] == a[1..] + b;
    }
  }

  lemma {:induction false} CountOne(r: Reservation, x: ResId)
    ensures CountIn([r], x) == if r.id == x then 1 else 0
  {
    assert [r][1..] == [];
  }

  lemma {:induction false} DrainsUpdate(ds: seq<Drain>, d: nat, e: Drain, x: ResId)
    requires d < |ds|
    ensures InDrains(ds[d := e], x)
         == InDrains(ds, x) - CountIn(ds[d].todo, x) - CountIn(ds[d].left, x) + CountIn(e.todo, x) + CountIn(e.left, x)
  {
    if d == 0 {
      assert ds[d := e][1..] == ds[1..];
    } else {
      DrainsUpdate(ds[1..], d - 1, e, x);
      assert ds[d := e][1..] == ds[1..][d - 1 := e];
    }
  }

  lemma {:induction false} DrainsAppend(ds: seq<Drain>, e: Drain, x: ResId)
    ensures InDrains(ds + [e], x) == InDrains(ds, x) + CountIn(e.todo, x) + CountIn(e.left, x)
  {
    if ds == [] {
      assert (ds + [e])[1..] == [];
    } else {
      DrainsAppend(ds[1..], e, x);
      assert (ds + [e])[1..] == ds[1..] + [e];
    }
  }

  lemma HeldAfterSettle(s: State, req: Reservation, p: Pool, v: Verdict, x: ResId)
    requires req.id !in s.closed && req.id in s.seen
    requires v != Proceed && (v == Booked ==> req.id !in s.pool.reserves)
    requires v == Queued ==> p == Enqueue(s.pool, req)
    requires v == Booked ==> p.pending == s.pool.pending && p.reserves.Keys == s.pool.reserves.Keys + {req.id}
    requires v != Queued && v != Booked ==> p == s.pool
    ensures Held(Settle(s, p, req.id, v), x)
         == Held(s, x) + if x == req.id then (if v == Queued || v == Booked then 1 else 0) - Has(s.inflight, x) else 0
  {
    if v == Queued {
      CountAppend(s.pool.pending, [req], x);
      CountOne(req, x);
    }
  }

  /** The requests held anywhere are the admitted ones, unchanged until booked. */
  ghost predicate AsSeen(s: State, r: Reservation) {
    r.id in s.seen && r == s.seen[r.id]
  }

  ghost predicate AllAsSeen(s: State, rs: seq<Reservation>) {
    forall r :: r in rs ==> AsSeen(s, r)
  }

  ghost predicate SeenOk(s: State, x: ResId) {
    x in s.seen ==>
      s.seen[x].id == x && NonNeg(Reqs(s.seen[x])) && (s.stamps || s.seen[x].node == "")
  }

  ghost predicate BookedOk(s: State, x: ResId) {
    x in s.pool.reserves ==>
      && x in s.seen
      && s.pool.reserves[x] == s.seen[x].(node := s.pool.reserves[x].node)
      && (s.pool.reserves[x].node in s.pool.nodes || (!s.stamps && s.pool.reserves[x].node == ""))
  }

  ghost predicate Content(s: State) {
    && (forall x :: SeenOk(s, x))
    && (forall x :: BookedOk(s, x))
    && AllAsSeen(s, s.pool.pending)
    && (forall x :: x in s.inflight ==> s.inflight[x].id == x && AsSeen(s, s.inflight[x]))
    && (forall d :: 0 <= d < |s.drains| ==> AllAsSeen(s, s.drains[d].todo) && AllAsSeen(s, s.drains[d].left))
    && (s.closed <= s.seen.Keys)
    && (!s.stamps ==> "" !in s.pool.nodes)
  }

  ghost predicate Tokens(s: State) {
    forall x :: HeldOk(s, x)
  }

  ghost predicate Inv(s: State) {
    Content(s) && Tokens(s) && Ledgers(s.pool, s.stamps)
  }

  // ---------- tokens through a step ----------

  lemma HeldOfStart(s: State, req: Reservation, x: ResId)
    requires Content(s) && HeldOk(s, x) && HeldOk(s, req.id) && TryStart(s, req).Some?
    ensures HeldOk(TryStart(s, req).value, x)
  {
    var (p, v) := Admit(s.pool, req);
    var t := Opened(s, req);
    if v != Proceed {
      HeldAfterSettle(t, req, p, v, x);
    }
  }

  lemma HeldOfPolicyError(s: State, id: ResId, x: ResId)
    requires Content(s) && HeldOk(s, x) && HeldOk(s, id) && TryPolicyError(s, id).Some?
    ensures HeldOk(TryPolicyError(s, id).value, x)
  {
    var (p, v) := Refuse(s.pool, s.inflight[id]);
    InFlight(s, id);
    HeldSettled(s, id, p, v, x);
  }

  lemma BookFrame(p: Pool, req: Reservation, node: NodeId, stamps: bool)
    ensures var (q, v) := Book(p, req, node, stamps);
            && v != Proceed && v != Queued
            && (v == Booked ==> q.pending == p.pending && q.reserves.Keys == p.reserves.Keys + {req.id})
            && (v != Booked ==> q == p)
  {
  }

  /** A request in flight is open and nowhere else. */
  lemma InFlight(s: State, id: ResId)
    requires Content(s) && HeldOk(s, id) && id in s.inflight
    ensures s.inflight[id].id == id && id in s.seen && id !in s.closed && id !in s.pool.reserves
  {
  }

  lemma HeldOfFinish(s: State, id: ResId, node: NodeId, x: ResId)
    requires Content(s) && HeldOk(s, x) && HeldOk(s, id) && TryFinish(s, id, node).Some?
    ensures HeldOk(TryFinish(s, id, node).value, x)
  {
    var (p, v) := Book(s.pool, s.inflight[id], node, s.stamps);
    InFlight(s, id);
    BookFrame(s.pool, s.inflight[id], node, s.stamps);
    HeldSettled(s, id, p, v, x);
  }

  lemma HeldSettled(s: State, id: ResId, p: Pool, v: Verdict, x: ResId)
    requires HeldOk(s, x) && id in s.inflight && s.inflight[id].id == id
    requires id in s.seen && id !in s.closed && id !in s.pool.reserves && v != Proceed
    requires v == Queued ==> p == Enqueue(s.pool, s.inflight[id])
    requires v == Booked ==> p.pending == s.pool.pending && p.reserves.Keys == s.pool.reserves.Keys + {id}
    requires v != Queued && v != Booked ==> p == s.pool
    ensures HeldOk(Settle(s, p, id, v), x)
  {
    HeldAfterSettle(s, s.inflight[id], p, v, x);
  }

  lemma HeldOfRelease(s: State, id: ResId, x: ResId)
    requires Content(s) && HeldOk(s, x) && HeldOk(s, id)
    ensures HeldOk(Step(s, Release(id)).value, x)
  {
    assert BookedOk(s, id);
  }

  lemma HeldOfRelocate(s: State, id: ResId, to: NodeId, x: ResId)
    requires Content(s) && HeldOk(s, x) && CanMove(s.pool, id, to)
    ensures HeldOk(Step(s, Relocate(id, to)).value, x)
  {
    assert BookedOk(s, id) && SeenOk(s, id);
  }

  lemma HeldOfBegin(s: State, x: ResId)
    requires HeldOk(s, x) && s.pool.pending != []
    ensures HeldOk(Step(s, BeginDrain).value, x)
  {
    DrainsAppend(s.drains, Drain(s.pool.pending, []), x);
  }

  lemma HeldOfDrainOne(s: State, d: nat, answer: Option<NodeId>, x: ResId)
    requires Content(s) && HeldOk(s, x) && TryDrainOne(s, d, answer).Some?
    requires HeldOk(s, s.drains[d].todo[0].id)
    ensures HeldOk(TryDrainOne(s, d, answer).value, x)
  {
    var req := s.drains[d].todo[0];
    var booked := DrainStep(s.pool, req, answer).1;
    var e := Drain(s.drains[d].todo[1..], s.drains[d].left + if booked then [] else [req]);
    DrainsUpdate(s.drains, d, e, x);
    DrainsUpdate(s.drains, d, e, req.id);
    CountAppend(s.drains[d].left, if booked then [] else [req], x);
    CountAppend(s.drains[d].left, if booked then [] else [req], req.id);
    CountOne(req, x);
    CountOne(req, req.id);
  }

  lemma HeldOfEndDrain(s: State, d: nat, x: ResId)
    requires HeldOk(s, x) && TryEndDrain(s, d).Some?
    ensures HeldOk(TryEndDrain(s, d).value, x)
  {
    DrainsUpdate(s.drains, d, Drain([], []), x);
    CountAppend(s.pool.pending, s.drains[d].left, x);
  }

  lemma HeldStep(s: State, a: Action, x: ResId)
    requires Content(s) && Tokens(s) && Step(s, a).Some?
    ensures HeldOk(Step(s, a).value, x)
  {
    assert HeldOk(s, x);
    match a
    case AddNode(id, n) =>
    case SetStatus(id, st) =>
    case SetPolicies(policies) =>
    case StartAllocate(wanted, generated) =>
      var req := Named(s.pool, wanted, generated);
      assert HeldOk(s, req.id);
      HeldOfStart(s, req, x);
    case PolicyError(id) =>
      assert HeldOk(s, id);
      HeldOfPolicyError(s, id, x);
    case FinishAllocate(id, node) =>
      assert HeldOk(s, id);
      HeldOfFinish(s, id, node, x);
    case Release(id) =>
      assert HeldOk(s, id);
      HeldOfRelease(s, id, x);
    case Relocate(id, to) => HeldOfRelocate(s, id, to, x);
    case BeginDrain => HeldOfBegin(s, x);
    case DrainOne(d, answer) =>
      assert HeldOk(s, s.drains[d].todo[0].id);
      HeldOfDrainOne(s, d, answer, x);
    case EndDrain(d) => HeldOfEndDrain(s, d, x);
  }

  // ---------- contents through a step ----------

  lemma ContentOfSettle(s: State, req: Reservation, p: Pool, v: Verdict)
    requires Content(s) && AsSeen(s, req)
    requires p == s.pool || p == Enqueue(s.pool, req)
    ensures Content(Settle(s, p, req.id, v))
  {
    var r := Settle(s, p, req.id, v);
    forall x
      ensures SeenOk(r, x) && BookedOk(r, x)
    {
      assert SeenOk(s, x) && BookedOk(s, x);
    }
  }

  lemma {:induction false} NotCounted(rs: seq<Reservation>, x: ResId)
    requires CountIn(rs, x) == 0
    ensures forall r :: r in rs ==> r.id != x
  {
    if rs != [] {
      NotCounted(rs[1..], x);
      assert forall r :: r in rs ==> r == rs[0] || r in rs[1..];
    }
  }

  lemma {:induction false} NotInDrains(ds: seq<Drain>, x: ResId, d: nat)
    requires InDrains(ds, x) == 0 && d < |ds|
    ensures CountIn(ds[d].todo, x) == 0 && CountIn(ds[d].left, x) == 0
  {
    if d > 0 {
      NotInDrains(ds[1..], x, d - 1);
    }
  }

  lemma {:induction false} StillSeen(s: State, req: Reservation, rs: seq<Reservation>)
    requires AllAsSeen(s, rs) && CountIn(rs, req.id) == 0
    ensures AllAsSeen(Opened(s, req), rs)
  {
    NotCounted(rs, req.id);
    forall r | r in rs
      ensures AsSeen(Opened(s, req), r)
    {
      assert AsSeen(s, r);
    }
  }

  /** An id that is not open is held nowhere, so admitting a request under it changes no other. */
  lemma ContentOfSeen(s: State, req: Reservation)
    requires Content(s) && Acceptable(s, req) && HeldOk(s, req.id)
    ensures Content(Opened(s, req))
  {
    var r := Opened(s, req);
    StillSeen(s, req, s.pool.pending);
    forall d | 0 <= d < |s.drains|
      ensures AllAsSeen(r, s.drains[d].todo) && AllAsSeen(r, s.drains[d].left)
    {
      NotInDrains(s.drains, req.id, d);
      StillSeen(s, req, s.drains[d].todo);
      StillSeen(s, req, s.drains[d].left);
    }
    forall x
      ensures SeenOk(r, x) && BookedOk(r, x)
    {
      assert SeenOk(s, x) && BookedOk(s, x);
    }
  }

  lemma ContentOfStart(s: State, req: Reservation)
    requires Content(s) && HeldOk(s, req.id) && TryStart(s, req).Some?
    ensures Content(TryStart(s, req).value)
  {
    var (p, v) := Admit(s.pool, req);
    var t := Opened(s, req);
    ContentOfSeen(s, req);
    if v == Proceed {
      var r := t.(inflight := t.inflight[req.id := req]);
      forall x
        ensures SeenOk(r, x) && BookedOk(r, x)
      {
        assert SeenOk(t, x) && BookedOk(t, x);
      }
    } else {
      ContentOfSettle(t, req, p, v);
    }
  }

  /** Storing a reservation at its node, or with no node at all. */
  lemma ContentOfStore(s: State, q: Pool, stored: Reservation)
    requires Content(s) && stored.id in s.seen && stored == s.seen[stored.id].(node := stored.node)
    requires q.pending == s.pool.pending && q.nodes.Keys == s.pool.nodes.Keys
    requires q.reserves == s.pool.reserves[stored.id := stored]
    requires stored.node in s.pool.nodes || (!s.stamps && stored.node == "")
    ensures Content(s.(pool := q))
  {
    var r := s.(pool := q);
    forall x
      ensures SeenOk(r, x) && BookedOk(r, x)
    {
      assert SeenOk(s, x) && BookedOk(s, x);
    }
  }

  lemma ContentOfFinish(s: State, id: ResId, node: NodeId)
    requires Content(s) && TryFinish(s, id, node).Some?
    ensures Content(TryFinish(s, id, node).value)
  {
    var req := s.inflight[id];
    var (p, v) := Book(s.pool, req, node, s.stamps);
    BookFrame(s.pool, req, node, s.stamps);
    assert SeenOk(s, id);
    if v == Booked {
      ContentOfBook(s, req, node);
    }
    ContentOfSettle(s.(pool := p), req, p, v);
  }

  lemma ContentOfBook(s: State, req: Reservation, node: NodeId)
    requires Content(s) && AsSeen(s, req) && (s.stamps || req.node == "")
    ensures Content(s.(pool := Book(s.pool, req, node, s.stamps).0))
  {
    if Book(s.pool, req, node, s.stamps).1 == Booked {
      var stored := if s.stamps then req.(node := node) else req;
      PlaceFrame(s.pool, req, node, stored);
      ContentOfStore(s, Place(s.pool, req, node, stored), stored);
    }
  }

  lemma ContentOfFree(s: State, id: ResId)
    requires Content(s)
    ensures Content(s.(pool := Free(s.pool, id)))
  {
    var r := s.(pool := Free(s.pool, id));
    forall x
      ensures SeenOk(r, x) && BookedOk(r, x)
    {
      assert SeenOk(s, x) && BookedOk(s, x);
    }
  }

  lemma ContentOfRelease(s: State, id: ResId)
    requires Content(s)
    ensures Content(Step(s, Release(id)).value)
  {
    ContentOfFree(s, id);
    var t := s.(pool := Free(s.pool, id));
    var r := Step(s, Release(id)).value;
    assert BookedOk(s, id);
    forall x
      ensures SeenOk(r, x) && BookedOk(r, x)
    {
      assert SeenOk(t, x) && BookedOk(t, x);
    }
  }

  lemma RelocateStep(s: State, id: ResId, to: NodeId)
    requires CanMove(s.pool, id, to)
    ensures Step(s, Relocate(id, to)) == Some(s.(pool := Move(s.pool, id, to)))
  {
  }

  lemma ContentOfRelocate(s: State, id: ResId, to: NodeId)
    requires Content(s) && CanMove(s.pool, id, to)
    ensures Content(s.(pool := Move(s.pool, id, to)))
  {
    BookedId(s, id);
    assert BookedOk(s, id);
    MoveFrame(s.pool, id, to);
    ContentOfStore(s, Move(s.pool, id, to), s.pool.reserves[id].(node := to));
  }

  lemma ContentOfNodes(s: State, r: State)
    requires Content(s) && s.pool.nodes.Keys <= r.pool.nodes.Keys && (!s.stamps ==> "" !in r.pool.nodes)
    requires r == s.(pool := s.pool.(nodes := r.pool.nodes, policies := r.pool.policies))
    ensures Content(r)
  {
    forall x
      ensures SeenOk(r, x) && BookedOk(r, x)
    {
      assert SeenOk(s, x) && BookedOk(s, x);
    }
  }

  /** Changing only the queue and the drains, among requests already held. */
  lemma ContentOfQueues(s: State, r: State)
    requires Content(s) && r == s.(pool := s.pool.(pending := r.pool.pending), drains := r.drains)
    requires AllAsSeen(s, r.pool.pending)
    requires forall d :: 0 <= d < |r.drains| ==> AllAsSeen(s, r.drains[d].todo) && AllAsSeen(s, r.drains[d].left)
    ensures Content(r)
  {
    forall x
      ensures SeenOk(r, x) && BookedOk(r, x)
    {
      assert SeenOk(s, x) && BookedOk(s, x);
    }
  }

  lemma ContentOfDrainOne(s: State, d: nat, answer: Option<NodeId>)
    requires Content(s) && TryDrainOne(s, d, answer).Some?
    ensures Content(TryDrainOne(s, d, answer).value)
  {
    var req := s.drains[d].todo[0];
    var (p, booked) := DrainStep(s.pool, req, answer);
    assert AsSeen(s, req);
    assert SeenOk(s, req.id);
    if booked {
      ContentOfStore(s, p, req.(node := answer.value));
    }
    DrainAdvanced(s.(pool := p), d, req, booked);
  }

  lemma DrainAdvanced(s: State, d: nat, req: Reservation, booked: bool)
    requires Content(s) && d < |s.drains| && s.drains[d].todo != [] && AsSeen(s, req)
    ensures Content(s.(drains := s.drains[d := Drain(s.drains[d].todo[1..],
                                                     s.drains[d].left + if booked then [] else [req])]))
  {
    var e := Drain(s.drains[d].todo[1..], s.drains[d].left + if booked then [] else [req]);
    assert AllAsSeen(s, e.todo) && AllAsSeen(s, e.left);
    ContentOfQueues(s, s.(drains := s.drains[d := e]));
  }

  lemma ContentStep(s: State, a: Action)
    requires Content(s) && Tokens(s) && Step(s, a).Some?
    ensures Content(Step(s, a).value)
  {
    match a
    case AddNode(id, n) => ContentOfNodes(s, Step(s, a).value);
    case SetStatus(id, st) => ContentOfNodes(s, Step(s, a).value);
    case SetPolicies(policies) => ContentOfNodes(s, Step(s, a).value);
    case StartAllocate(wanted, generated) =>
      assert HeldOk(s, Named(s.pool, wanted, generated).id);
      ContentOfStart(s, Named(s.pool, wanted, generated));
    case PolicyError(id) =>
      var (p, v) := Refuse(s.pool, s.inflight[id]);
      ContentOfSettle(s, s.inflight[id], p, v);
    case FinishAllocate(id, node) => ContentOfFinish(s, id, node);
    case Release(id) => ContentOfRelease(s, id);
    case Relocate(id, to) =>
      RelocateStep(s, id, to);
      ContentOfRelocate(s, id, to);
    case BeginDrain => ContentOfQueues(s, Step(s, a).value);
    case DrainOne(d, answer) => ContentOfDrainOne(s, d, answer);
    case EndDrain(d) => ContentOfQueues(s, Step(s, a).value);
  }

  // ---------- ledgers through a step ----------

  /** How a step may change one ledger: the capacity stays, and only an unrecorded booking adds excess. */
  ghost predicate LedgerStep(s: State, a: Action, n: NodeId, rt: RType)
    requires n in s.pool.nodes && Step(s, a).Some?
  {
    Balances(s.pool, Step(s, a).value.pool, n, rt, Unrecorded(s, a, n, rt))
  }

  /** What Allocate books on n without recording the node. */
  ghost function Unrecorded(s: State, a: Action, n: NodeId, rt: RType): real {
    if && a.FinishAllocate? && !s.stamps && a.node == n && a.id in s.inflight
       && Book(s.pool, s.inflight[a.id], n, s.stamps).1 == Booked
    then Get(Reqs(s.inflight[a.id]), rt) else 0.0
  }

  lemma SameLedger(p: Pool, q: Pool, n: NodeId, rt: RType)
    requires n in p.nodes && n in q.nodes && q.reserves == p.reserves && Get(p.nodes[n].res, rt) >= 0.0
    requires q.nodes[n].res == p.nodes[n].res && q.nodes[n].alloc == p.nodes[n].alloc
    ensures Balances(p, q, n, rt, 0.0)
  {
  }

  lemma LedgerOfBook(p: Pool, req: Reservation, node: NodeId, stamps: bool, n: NodeId, rt: RType)
    requires req.id !in p.reserves && (stamps || req.node !in p.nodes)
    requires n in p.nodes && Get(p.nodes[n].res, rt) >= 0.0
    ensures Balances(p, Book(p, req, node, stamps).0, n, rt,
                     if !stamps && n == node && Book(p, req, node, stamps).1 == Booked then Get(Reqs(req), rt) else 0.0)
  {
    if node in p.nodes && Fits(p.nodes[node].res, Reqs(req)) {
      PlaceBalances(p, req, node, if stamps then req.(node := node) else req, n, rt);
    }
  }

  lemma LedgerOfDrainStep(p: Pool, req: Reservation, answer: Option<NodeId>, n: NodeId, rt: RType)
    requires req.id !in p.reserves && n in p.nodes && Get(p.nodes[n].res, rt) >= 0.0
    ensures Balances(p, DrainStep(p, req, answer).0, n, rt, 0.0)
  {
    if DrainStep(p, req, answer).1 {
      PlaceBalances(p, req, answer.value, req.(node := answer.value), n, rt);
    }
  }

  /** A request a drain has yet to try is not booked. */
  lemma NotYetBooked(s: State, d: nat)
    requires d < |s.drains| && s.drains[d].todo != [] && HeldOk(s, s.drains[d].todo[0].id)
    ensures s.drains[d].todo[0].id !in s.pool.reserves
  {
    var req := s.drains[d].todo[0];
    DrainsUpdate(s.drains, d, Drain(s.drains[d].todo[1..], s.drains[d].left), req.id);
  }

  lemma NonNegBooked(s: State)
    requires Content(s)
    ensures NonNegReserves(s.pool)
  {
    forall x | x in s.pool.reserves
      ensures NonNeg(Reqs(s.pool.reserves[x]))
    {
      assert BookedOk(s, x) && SeenOk(s, x);
    }
  }

  predicate Quiet(a: Action) {
    !a.FinishAllocate? && !a.Release? && !a.Relocate? && !a.DrainOne?
  }

  lemma QuietFrame(s: State, a: Action, n: NodeId)
    requires Quiet(a) && Step(s, a).Some? && n in s.pool.nodes
    ensures var q := Step(s, a).value.pool;
            && n in q.nodes && q.reserves == s.pool.reserves
            && q.nodes[n].res == s.pool.nodes[n].res && q.nodes[n].alloc == s.pool.nodes[n].alloc
  {
    if a.StartAllocate? || a.PolicyError? {
      QueueingFrame(s, a);
    }
  }

  /** These only queue requests. */
  lemma QueueingFrame(s: State, a: Action)
    requires Step(s, a).Some? && (a.StartAllocate? || a.PolicyError?)
    ensures Step(s, a).value.pool.nodes == s.pool.nodes && Step(s, a).value.pool.reserves == s.pool.reserves
  {
  }

  lemma LedgerOfFinish(s: State, id: ResId, node: NodeId, n: NodeId, rt: RType)
    requires Content(s) && Tokens(s) && n in s.pool.nodes && LedgerOk(s.pool, s.stamps, n, rt) && id in s.inflight
    ensures LedgerStep(s, FinishAllocate(id, node), n, rt)
  {
    assert HeldOk(s, id) && SeenOk(s, id);
    InFlight(s, id);
    LedgerOfBook(s.pool, s.inflight[id], node, s.stamps, n, rt);
  }

  lemma BookedId(s: State, id: ResId)
    requires Content(s) && id in s.pool.reserves
    ensures s.pool.reserves[id].id == id
  {
    assert BookedOk(s, id) && SeenOk(s, id);
  }

  lemma Balanced(s: State, a: Action, q: Pool, n: NodeId, rt: RType)
    requires n in s.pool.nodes && Step(s, a).Some? && Step(s, a).value.pool == q && !a.FinishAllocate?
    requires Balances(s.pool, q, n, rt, 0.0)
    ensures LedgerStep(s, a, n, rt)
  {
  }

  lemma LedgerOfRelocate(s: State, id: ResId, to: NodeId, n: NodeId, rt: RType)
    requires NonNegReserves(s.pool) && CanMove(s.pool, id, to) && s.pool.reserves[id].id == id
    requires n in s.pool.nodes && LedgerOk(s.pool, s.stamps, n, rt)
    ensures LedgerStep(s, Relocate(id, to), n, rt)
  {
    RelocateStep(s, id, to);
    MoveBalances(s.pool, id, to, n, rt);
    Balanced(s, Relocate(id, to), Move(s.pool, id, to), n, rt);
  }

  lemma LedgerOfDrainOne(s: State, d: nat, answer: Option<NodeId>, n: NodeId, rt: RType)
    requires Tokens(s) && n in s.pool.nodes && LedgerOk(s.pool, s.stamps, n, rt) && TryDrainOne(s, d, answer).Some?
    ensures LedgerStep(s, DrainOne(d, answer), n, rt)
  {
    assert HeldOk(s, s.drains[d].todo[0].id);
    NotYetBooked(s, d);
    LedgerOfDrainStep(s.pool, s.drains[d].todo[0], answer, n, rt);
  }

  lemma LedgerSteps(s: State, a: Action, n: NodeId, rt: RType)
    requires Content(s) && Tokens(s) && n in s.pool.nodes && LedgerOk(s.pool, s.stamps, n, rt) && Step(s, a).Some?
    ensures LedgerStep(s, a, n, rt)
  {
    if a.FinishAllocate? {
      LedgerOfFinish(s, a.id, a.node, n, rt);
    } else if a.Release? {
      NonNegBooked(s);
      FreeBalances(s.pool, a.id, n, rt);
    } else if a.Relocate? {
      NonNegBooked(s);
      BookedId(s, a.id);
      LedgerOfRelocate(s, a.id, a.to, n, rt);
    } else if a.DrainOne? {
      LedgerOfDrainOne(s, a.d, a.answer, n, rt);
    } else {
      QuietFrame(s, a, n);
      SameLedger(s.pool, Step(s, a).value.pool, n, rt);
    }
  }

  lemma NoReservations(s: State, id: NodeId, rt: RType)
    requires Content(s) && id !in s.pool.nodes && (id == "" ==> s.stamps)
    ensures Amounts(s.pool.reserves, id, rt) == map[]
  {
    forall x | x in s.pool.reserves
      ensures s.pool.reserves[x].node != id
    {
      assert BookedOk(s, x);
    }
  }

  /** A new node has handed out nothing, and no reservation is on it yet. */
  lemma LedgerOfNewNode(s: State, id: NodeId, m: Node, rt: RType)
    requires Content(s) && Step(s, AddNode(id, m)).Some?
    ensures LedgerOk(Step(s, AddNode(id, m)).value.pool, s.stamps, id, rt)
  {
    NoReservations(s, id, rt);
  }

  lemma UnrecordedNonNeg(s: State, a: Action, n: NodeId, rt: RType)
    requires Content(s)
    ensures Unrecorded(s, a, n, rt) >= 0.0 && (s.stamps ==> Unrecorded(s, a, n, rt) == 0.0)
  {
    if a.FinishAllocate? && a.id in s.inflight {
      assert SeenOk(s, a.id);
    }
  }

  lemma InvStep(s: State, a: Action)
    requires Inv(s) && Step(s, a).Some?
    ensures Inv(Step(s, a).value)
  {
    var r := Step(s, a).value;
    ContentStep(s, a);
    forall x
      ensures HeldOk(r, x)
    {
      HeldStep(s, a, x);
    }
    forall n, rt | n in r.pool.nodes
      ensures LedgerOk(r.pool, r.stamps, n, rt)
    {
      if n in s.pool.nodes {
        assert LedgerOk(s.pool, s.stamps, n, rt);
        LedgerSteps(s, a, n, rt);
        UnrecordedNonNeg(s, a, n, rt);
      } else {
        NewNodes(s, a, n);
        LedgerOfNewNode(s, a.id, a.n, rt);
      }
    }
  }

  lemma NewNodes(s: State, a: Action, n: NodeId)
    requires Step(s, a).Some? && n in Step(s, a).value.pool.nodes && n !in s.pool.nodes
    ensures a.AddNode? && a.id == n
  {
  }

  // ---------- runs ----------

  /** s is the state after the actions, from an empty pool. */
  ghost predicate Reaches(stamps: bool, actions: seq<Action>, s: State) {
    Run(Initial(stamps), actions) == Some(s)
  }

  lemma {:induction false} InvRun(stamps: bool, actions: seq<Action>, s: State)
    requires Reaches(stamps, actions, s)
    ensures Inv(s) && s.stamps == stamps
  {
    if actions != [] {
      var n := |actions| - 1;
      var p := Run(Initial(stamps), actions[..n]).value;
      InvRun(stamps, actions[..n], p);
      InvStep(p, actions[n]);
      StampsKept(p, actions[n]);
    }
  }

  lemma StampsKept(s: State, a: Action)
    requires Step(s, a).Some?
    ensures Step(s, a).value.stamps == s.stamps
  {
  }

  /** In every run, nothing is overdrawn and what is handed out on a node covers the reservations placed there;
      it is exactly their sum when Allocate records the chosen node. */
  lemma LedgersHold(stamps: bool, actions: seq<Action>, s: State, n: NodeId, rt: RType)
    requires Reaches(stamps, actions, s) && n in s.pool.nodes
    ensures Get(s.pool.nodes[n].res, rt) >= 0.0
    ensures Get(s.pool.nodes[n].alloc, rt) >= SumOf(Amounts(s.pool.reserves, n, rt))
    ensures stamps ==> Get(s.pool.nodes[n].alloc, rt) == SumOf(Amounts(s.pool.reserves, n, rt))
  {
    InvRun(stamps, actions, s);
    assert LedgerOk(s.pool, s.stamps, n, rt);
  }

  /** In every run, whoever frees or moves a reservation finds its amounts in the ledger of its node. */
  lemma ClampsNeverAct(stamps: bool, actions: seq<Action>, s: State, id: ResId, rt: RType)
    requires Reaches(stamps, actions, s) && id in s.pool.reserves && s.pool.reserves[id].node in s.pool.nodes
    ensures var r := s.pool.reserves[id];
            0.0 <= Get(Reqs(r), rt) <= Get(s.pool.nodes[r.node].alloc, rt)
  {
    InvRun(stamps, actions, s);
    NonNegBooked(s);
    Enough(s.pool, id, s.pool.reserves[id].node, rt);
    assert LedgerOk(s.pool, s.stamps, s.pool.reserves[id].node, rt);
  }

  /** Whatever happens after a state, each of its nodes keeps its capacity: free plus handed out. */
  lemma {:induction false} CapacityStays(stamps: bool, actions: seq<Action>, more: seq<Action>, s: State, r: State,
                                         n: NodeId, rt: RType)
    requires Reaches(stamps, actions, s) && Run(s, more) == Some(r) && n in s.pool.nodes
    ensures Inv(r) && n in r.pool.nodes && Capacity(r.pool, n, rt) == Capacity(s.pool, n, rt)
  {
    if more == [] {
      InvRun(stamps, actions, s);
    } else {
      var k := |more| - 1;
      var p := Run(s, more[..k]).value;
      CapacityStays(stamps, actions, more[..k], s, p, n, rt);
      InvStep(p, more[k]);
      assert LedgerOk(p.pool, p.stamps, n, rt);
      LedgerSteps(p, more[k], n, rt);
    }
  }

  /** The amounts Allocate booked on n without recording it, over a whole run. */
  ghost function Leaked(s: State, actions: seq<Action>, n: NodeId, rt: RType): real {
    if actions == [] then 0.0
    else
      var k := |actions| - 1;
      Leaked(s, actions[..k], n, rt)
      + match Run(s, actions[..k])
        case None => 0.0
        case Some(r) => Unrecorded(r, actions[k], n, rt)
  }

  /** What a node hands out beyond its reservations is exactly what Allocate booked there without recording it:
      no free or move ever gives any of it back. */
  lemma {:induction false} ExcessIsLeaked(stamps: bool, actions: seq<Action>, s: State, n: NodeId, rt: RType)
    requires Reaches(stamps, actions, s)
    ensures n in s.pool.nodes ==> Excess(s.pool, n, rt) == Leaked(Initial(stamps), actions, n, rt)
    ensures n !in s.pool.nodes ==> Leaked(Initial(stamps), actions, n, rt) == 0.0
  {
    if actions != [] {
      var k := |actions| - 1;
      var p := Run(Initial(stamps), actions[..k]).value;
      ExcessIsLeaked(stamps, actions[..k], p, n, rt);
      InvRun(stamps, actions[..k], p);
      if n in p.pool.nodes {
        assert LedgerOk(p.pool, p.stamps, n, rt);
        LedgerSteps(p, actions[k], n, rt);
      } else if n in s.pool.nodes {
        NewNodes(p, actions[k], n);
        NewNodeIsExact(p, n, actions[k].n, rt);
      }
    }
  }

  lemma NewNodeIsExact(s: State, id: NodeId, m: Node, rt: RType)
    requires Content(s) && Step(s, AddNode(id, m)).Some?
    ensures Excess(Step(s, AddNode(id, m)).value.pool, id, rt) == 0.0
  {
    LedgerOfNewNode(s, id, m, rt);
    NoReservations(s, id, rt);
  }

  /** In every run, each admitted request is in exactly one place until it is freed or refused, and unchanged
      there except for the node of a booked one; so drains neither lose nor duplicate requests. */
  lemma {:induction false} RequestsConserved(stamps: bool, actions: seq<Action>, s: State, x: ResId)
    requires Reaches(stamps, actions, s)
    ensures CountIn(s.pool.pending, x) + Has(s.inflight, x) + InDrains(s.drains, x) + Has(s.pool.reserves, x)
         == if x in s.seen && x !in s.closed then 1 else 0
    ensures x in s.pool.reserves ==> x in s.seen && s.pool.reserves[x] == s.seen[x].(node := s.pool.reserves[x].node)
    ensures x in s.inflight ==> x in s.seen && s.inflight[x] == s.seen[x]
    ensures forall r :: r in s.pool.pending ==> r.id in s.seen && r == s.seen[r.id]
  {
    InvRun(stamps, actions, s);
    assert HeldOk(s, x) && BookedOk(s, x);
  }

  // ---------- how requests end ----------

  lemma OpenInFlight(stamps: bool, actions: seq<Action>, s: State, x: ResId, node: NodeId)
    requires Reaches(stamps, actions, s) && x in s.inflight
    ensures s.inflight[x].id == x && x in s.seen && x !in s.closed && x !in s.pool.reserves
    ensures HeldOk(TryFinish(s, x, node).value, x)
  {
    InvRun(stamps, actions, s);
    assert HeldOk(s, x);
    InFlight(s, x);
    HeldOfFinish(s, x, node, x);
  }

  lemma FinishIs(s: State, x: ResId, node: NodeId)
    requires x in s.inflight && s.inflight[x].id == x && x in s.seen && x !in s.closed && x !in s.pool.reserves
    ensures var r := TryFinish(s, x, node).value;
            && (x in r.closed <==> node !in s.pool.nodes || !Fits(s.pool.nodes[node].res, Reqs(s.inflight[x])))
            && (x in r.closed <==> x !in r.pool.reserves) && x in r.seen
  {
  }

  /** The last phase of an Allocate call ends its request for good exactly if the chosen node is gone or has no room
      any more, also for a soft request, which the other refusals queue. It is then held nowhere, or else booked. */
  lemma {:induction false} FinishCloses(stamps: bool, actions: seq<Action>, s: State, x: ResId, node: NodeId)
    requires Reaches(stamps, actions, s) && x in s.inflight
    ensures var r := Step(s, FinishAllocate(x, node)).value;
            && (x in r.closed <==> node !in s.pool.nodes || !Fits(s.pool.nodes[node].res, Reqs(s.inflight[x])))
            && Held(r, x) == (if x in r.closed then 0 else 1)
            && (x in r.closed <==> x !in r.pool.reserves)
  {
    OpenInFlight(stamps, actions, s, x, node);
    FinishIs(s, x, node);
  }

  const SMALL_NODE := Node(map["CPU" := 1.0], map[], Online, map[], 0)

  /** A request for the whole node. */
  function Whole(id: ResId, soft: bool): Reservation {
    Reservation(id, "", "CPU", map[], 1.0, 0, soft, [], [], None, "")
  }

  /** Both requests pass the first phase; the hard one is booked first. */
  const CONTENTION: seq<Action> :=
    [AddNode("n", SMALL_NODE), SetPolicies({DEFAULT_POLICY}), StartAllocate(Whole("soft", true), ""),
     StartAllocate(Whole("hard", false), ""), FinishAllocate("hard", "n")]

  lemma {:induction false} OneMoreStep(stamps: bool, actions: seq<Action>, a: Action, s: State)
    requires Reaches(stamps, actions, s) && Step(s, a).Some?
    ensures Reaches(stamps, actions + [a], Step(s, a).value)
  {
    assert (actions + [a])[..|actions|] == actions;
  }

  lemma BothAdmitted(s: State, id: ResId, soft: bool)
    requires s.pool.nodes == map["n" := SMALL_NODE] && s.pool.policies == {DEFAULT_POLICY} && s.pool.reserves == map[]
    requires id != "" && id !in s.seen
    ensures Step(s, StartAllocate(Whole(id, soft), ""))
         == Some(Opened(s, Whole(id, soft)).(inflight := s.inflight[id := Whole(id, soft)]))
  {
    var req := Whole(id, soft);
    assert Reqs(req) == map["CPU" := 1.0];
    assert Candidate("n", s.pool.nodes["n"], req);
    assert Named(s.pool, req, "") == req;
  }

  lemma {:induction false} BeforeContention(stamps: bool) returns (s: State)
    ensures Reaches(stamps, CONTENTION[..4], s)
    ensures s.pool.nodes == map["n" := SMALL_NODE] && s.inflight.Keys == {"soft", "hard"} && s.stamps == stamps
    ensures s.inflight["soft"] == Whole("soft", true) && s.inflight["hard"] == Whole("hard", false)
  {
    var s0 := Initial(stamps);
    assert Reaches(stamps, [], s0);
    OneMoreStep(stamps, [], CONTENTION[0], s0);
    var s1 := Step(s0, CONTENTION[0]).value;
    OneMoreStep(stamps, [] + [CONTENTION[0]], CONTENTION[1], s1);
    var s2 := Step(s1, CONTENTION[1]).value;
    BothAdmitted(s2, "soft", true);
    OneMoreStep(stamps, [] + [CONTENTION[0]] + [CONTENTION[1]], CONTENTION[2], s2);
    var s3 := Step(s2, CONTENTION[2]).value;
    BothAdmitted(s3, "hard", false);
    OneMoreStep(stamps, [] + [CONTENTION[0]] + [CONTENTION[1]] + [CONTENTION[2]], CONTENTION[3], s3);
    s := Step(s3, CONTENTION[3]).value;
    assert CONTENTION[..4] == [] + [CONTENTION[0]] + [CONTENTION[1]] + [CONTENTION[2]] + [CONTENTION[3]];
  }

  lemma NodeFills(p: State)
    requires p.pool.nodes == map["n" := SMALL_NODE] && p.inflight.Keys == {"soft", "hard"}
    requires p.inflight["soft"] == Whole("soft", true) && p.inflight["hard"] == Whole("hard", false)
    ensures var s := Step(p, FinishAllocate("hard", "n")).value;
            && "soft" in s.inflight && s.inflight["soft"] == Whole("soft", true) && "n" in s.pool.nodes
            && !Fits(s.pool.nodes["n"].res, Reqs(Whole("soft", true)))
  {
    assert Reqs(Whole("hard", false)) == map["CPU" := 1.0] && Reqs(Whole("soft", true)) == map["CPU" := 1.0];
    Taken(SMALL_NODE, Reqs(Whole("hard", false)), "CPU");
  }

  /** Such a run: the node fills up between the two phases of a soft request's call, and the request is dropped. */
  lemma {:induction false} SoftRequestDropped(stamps: bool) returns (s: State, r: State)
    ensures Reaches(stamps, CONTENTION, s) && "soft" in s.inflight && s.inflight["soft"].soft
    ensures Reaches(stamps, CONTENTION + [FinishAllocate("soft", "n")], r)
    ensures "soft" in r.closed && Held(r, "soft") == 0
  {
    var p := BeforeContention(stamps);
    s := Step(p, CONTENTION[4]).value;
    NodeFills(p);
    assert CONTENTION == CONTENTION[..4] + [CONTENTION[4]];
    OneMoreStep(stamps, CONTENTION[..4], CONTENTION[4], p);
    r := Step(s, FinishAllocate("soft", "n")).value;
    OneMoreStep(stamps, CONTENTION, FinishAllocate("soft", "n"), s);
    FinishCloses(stamps, CONTENTION, s, "soft", "n");
  }
}
