/** The pool's own methods: loops over maps that update the ledgers entry by entry, each proved to do exactly
    what its locked region is specified to do. */
module PoolManager {
  import opened Ledger
  import opened Pools
  import opened PoolRuns
  import opened Options
  import opened ReservationIds

  // ---------- moves made by one Rebalance or one deadline pass ----------

  const OVERLOADED := 0.8

  /** The part of a node's listed capacity that is handed out. */
  ghost function Util(n: Node): real {
    var used := SumOf(map rt | rt in n.res :: Get(n.alloc, rt));
    var total := SumOf(map rt | rt in n.res :: n.res[rt] + Get(n.alloc, rt));
    if total <= 0.0 then 0.0 else used / total
  }

  /** The two totals over the types of a node's list that are not in todo. */
  ghost function UsedOf(n: Node, todo: set<RType>): map<RType, real> {
    map x | x in n.res && x !in todo :: Get(n.alloc, x)
  }

  ghost function TotalOf(n: Node, todo: set<RType>): map<RType, real> {
    map x | x in n.res && x !in todo :: n.res[x] + Get(n.alloc, x)
  }

  lemma UsedOne(n: Node, todo: set<RType>, rt: RType)
    requires rt in todo && todo <= n.res.Keys
    ensures SumOf(UsedOf(n, todo - {rt})) == SumOf(UsedOf(n, todo)) + Get(n.alloc, rt)
  {
    SumWith(UsedOf(n, todo), rt, Get(n.alloc, rt));
    assert UsedOf(n, todo - {rt}) == UsedOf(n, todo)[rt := Get(n.alloc, rt)];
  }

  lemma TotalOne(n: Node, todo: set<RType>, rt: RType)
    requires rt in todo && todo <= n.res.Keys
    ensures SumOf(TotalOf(n, todo - {rt})) == SumOf(TotalOf(n, todo)) + (n.res[rt] + Get(n.alloc, rt))
  {
    SumWith(TotalOf(n, todo), rt, n.res[rt] + Get(n.alloc, rt));
    assert TotalOf(n, todo - {rt}) == TotalOf(n, todo)[rt := n.res[rt] + Get(n.alloc, rt)];
  }

  method Utilization(n: Node) returns (u: real)
    ensures u == Util(n)
  {
    var used, total := 0.0, 0.0;
    var todo := n.res.Keys;
    assert UsedOf(n, todo) == map[] && TotalOf(n, todo) == map[];
    while todo != {}
      invariant todo <= n.res.Keys
      invariant used == SumOf(UsedOf(n, todo)) && total == SumOf(TotalOf(n, todo))
    {
      var rt :| rt in todo;
      UsedOne(n, todo, rt);
      TotalOne(n, todo, rt);
      used := used + Get(n.alloc, rt);
      total := total + n.res[rt] + Get(n.alloc, rt);
      todo := todo - {rt};
    }
    assert UsedOf(n, todo) == map rt | rt in n.res :: Get(n.alloc, rt);
    assert TotalOf(n, todo) == map rt | rt in n.res :: n.res[rt] + Get(n.alloc, rt);
    u := if total <= 0.0 then 0.0 else used / total;
  }

  ghost function OverloadedNodes(nodes: map<NodeId, Node>): set<NodeId> {
    set id | id in nodes && Util(nodes[id]) >= OVERLOADED
  }

  datatype Reason = Overload(src: NodeId) | Deadline(now: real)

  /** Why a reservation is to be moved at all. */
  predicate Due(reason: Reason, r: Reservation) {
    match reason
    case Overload(src) => r.node == src && r.soft && r.priority <= MAX_MOVABLE_PRIORITY
    case Deadline(now) => r.deadline.Some? && r.deadline.value - now < DEADLINE_SLACK
  }

  /** A node it may be moved to; only Rebalance looks at affinity. */
  predicate Target(p: Pool, id: ResId, reason: Reason, to: NodeId) {
    CanMove(p, id, to) && (reason.Overload? ==> Matches(to, p.nodes[to], p.reserves[id]))
  }

  /** One reservation looked at in a pass, and where it went. */
  datatype Visit = Visit(id: ResId, reason: Reason, to: Option<NodeId>)

  /** The visit's outcome is the one the pass must give: a due reservation moves if any node can take it. */
  predicate Rightly(p: Pool, v: Visit) {
    && v.id in p.reserves
    && (v.to.Some? ==> Due(v.reason, p.reserves[v.id]) && Target(p, v.id, v.reason, v.to.value))
    && (v.to.None? && Due(v.reason, p.reserves[v.id]) ==> forall to :: to in p.nodes ==> !Target(p, v.id, v.reason, to))
  }

  /** The pool after a visit, if it had its right outcome. */
  function Visited(p: Pool, v: Visit): Option<Pool> {
    if !Rightly(p, v) then None
    else if v.to.Some? then Some(Move(p, v.id, v.to.value))
    else Some(p)
  }

  /** The pool after a pass, if each visit had its right outcome when it was made. */
  function Passed(p: Pool, visits: seq<Visit>): Option<Pool> {
    if visits == [] then Some(p)
    else
      var v := visits[|visits| - 1];
      match Passed(p, visits[..|visits| - 1])
      case None => None
      case Some(q) => Visited(q, v)
  }

  ghost function Ids(visits: seq<Visit>): set<ResId> {
    set v | v in visits :: v.id
  }

  lemma IdsAppend(visits: seq<Visit>, v: Visit)
    ensures Ids(visits + [v]) == Ids(visits) + {v.id}
  {
    assert forall w :: w in visits + [v] <==> w in visits || w == v;
    assert v in visits + [v];
  }

  lemma {:induction false} PassConcat(p: Pool, a: seq<Visit>, b: seq<Visit>)
    requires Passed(p, a).Some?
    ensures Passed(p, a + b) == Passed(Passed(p, a).value, b)
  {
    if b == [] {
      assert a + b == a;
    } else {
      PassConcat(p, a, b[..|b| - 1]);
      assert (a + b)[..|a + b| - 1] == a + b[..|b| - 1];
    }
  }

  /** Every reservation is looked at for every overloaded node. */
  ghost predicate Covers(visits: seq<Visit>, src: NodeId, ids: set<ResId>) {
    forall id :: id in ids ==> exists v :: v in visits && v.id == id && v.reason == Overload(src)
  }

  lemma AllCovered(visits: seq<Visit>, src: NodeId)
    requires forall i :: 0 <= i < |visits| ==> visits[i].reason == Overload(src)
    ensures Covers(visits, src, Ids(visits))
  {
  }

  lemma CoversMore(visits: seq<Visit>, more: seq<Visit>, src: NodeId, ids: set<ResId>)
    requires Covers(visits, src, ids) || Covers(more, src, ids)
    ensures Covers(visits + more, src, ids)
  {
    forall id | id in ids
      ensures exists v :: v in visits + more && v.id == id && v.reason == Overload(src)
    {
      if Covers(visits, src, ids) {
        var v :| v in visits && v.id == id && v.reason == Overload(src);
        assert v in visits + more;
      } else {
        var v :| v in more && v.id == id && v.reason == Overload(src);
        assert v in visits + more;
      }
    }
  }

  function Moves(visits: seq<Visit>): seq<Action> {
    if visits == [] then []
    else
      var v := visits[|visits| - 1];
      Moves(visits[..|visits| - 1]) + if v.to.Some? then [Relocate(v.id, v.to.value)] else []
  }

  /** A whole pass is a run of single moves, so it keeps all that runs keep. */
  lemma {:induction false} PassIsARun(s: State, visits: seq<Visit>)
    requires Passed(s.pool, visits).Some?
    ensures Run(s, Moves(visits)) == Some(s.(pool := Passed(s.pool, visits).value))
  {
    if visits != [] {
      var k := |visits| - 1;
      PassIsARun(s, visits[..k]);
      var actions := Moves(visits);
      if visits[k].to.Some? {
        assert actions[..|actions| - 1] == Moves(visits[..k]);
        var q := Passed(s.pool, visits[..k]).value;
        RelocateStep(s.(pool := q), visits[k].id, visits[k].to.value);
      } else {
        assert actions == Moves(visits[..k]);
      }
    }
  }

  /** A pass changes where reservations are, not which there are or what is queued. */
  lemma {:induction false} PassFrame(p: Pool, visits: seq<Visit>)
    requires Passed(p, visits).Some?
    ensures var q := Passed(p, visits).value;
            q.reserves.Keys == p.reserves.Keys && q.nodes.Keys == p.nodes.Keys && q.pending == p.pending
  {
    if visits != [] {
      var v := visits[|visits| - 1];
      PassFrame(p, visits[..|visits| - 1]);
      if v.to.Some? {
        MoveFrame(Passed(p, visits[..|visits| - 1]).value, v.id, v.to.value);
      }
    }
  }

  // ---------- one uninterrupted processPendingOnce ----------

  /** The pool and the requests put back after trying the queue in order. The policy's answer may be another one at
      each attempt. */
  function DrainAll(p: Pool, queue: seq<Reservation>, policy: (nat, Pool, Reservation) -> Option<NodeId>):
    (Pool, seq<Reservation>) {
    if queue == [] then (p, [])
    else
      var k := |queue| - 1;
      var (q, left) := DrainAll(p, queue[..k], policy);
      var (r, booked) := DrainStep(q, queue[k], policy(k, q, queue[k]));
      (r, left + if booked then [] else [queue[k]])
  }

  lemma {:induction false} DrainAllMore(p: Pool, queue: seq<Reservation>, i: nat,
                                        policy: (nat, Pool, Reservation) -> Option<NodeId>)
    requires i < |queue|
    ensures var (q, left) := DrainAll(p, queue[..i], policy);
            var (r, booked) := DrainStep(q, queue[i], policy(i, q, queue[i]));
            DrainAll(p, queue[..i + 1], policy) == (r, left + if booked then [] else [queue[i]])
  {
    assert queue[..i + 1][..i] == queue[..i];
  }

  function DrainActions(p: Pool, queue: seq<Reservation>, policy: (nat, Pool, Reservation) -> Option<NodeId>, d: nat):
    (actions: seq<Action>)
    ensures |actions| == |queue|
  {
    if queue == [] then []
    else
      var k := |queue| - 1;
      DrainActions(p, queue[..k], policy, d) + [DrainOne(d, policy(k, DrainAll(p, queue[..k], policy).0, queue[k]))]
  }

  lemma DrainOneIs(s: State, d: nat, req: Reservation, rest: seq<Reservation>, left: seq<Reservation>,
                   answer: Option<NodeId>)
    requires d < |s.drains| && s.drains[d] == Drain([req] + rest, left)
    ensures var (p, booked) := DrainStep(s.pool, req, answer);
            TryDrainOne(s, d, answer)
            == Some(s.(pool := p, drains := s.drains[d := Drain(rest, left + if booked then [] else [req])]))
  {
    assert ([req] + rest)[1..] == rest;
  }

  lemma DrainLast(s: State, q: Pool, d: nat, req: Reservation, rest: seq<Reservation>, left: seq<Reservation>,
                  answer: Option<NodeId>)
    requires d < |s.drains|
    ensures var (p, booked) := DrainStep(q, req, answer);
            Step(s.(pool := q, drains := s.drains[d := Drain([req] + rest, left)]), DrainOne(d, answer))
            == Some(s.(pool := p, drains := s.drains[d := Drain(rest, left + if booked then [] else [req])]))
  {
    var before := s.drains[d := Drain([req] + rest, left)];
    DrainOneIs(s.(pool := q, drains := before), d, req, rest, left, answer);
    var all := left + if DrainStep(q, req, answer).1 then [] else [req];
    assert before[d := Drain(rest, all)] == s.drains[d := Drain(rest, all)];
  }

  /** Trying the queue request by request is a run of the drain's steps. */
  lemma {:induction false} DrainIsARun(s: State, queue: seq<Reservation>, rest: seq<Reservation>, d: nat,
                                       policy: (nat, Pool, Reservation) -> Option<NodeId>)
    requires d < |s.drains| && s.drains[d] == Drain(queue + rest, [])
    ensures var (p, left) := DrainAll(s.pool, queue, policy);
            Run(s, DrainActions(s.pool, queue, policy, d)) ==
              Some(s.(pool := p, drains := s.drains[d := Drain(rest, left)]))
  {
    if queue == [] {
      assert queue + rest == rest;
      assert s.drains[d := Drain(rest, [])] == s.drains;
    } else {
      var k := |queue| - 1;
      assert queue + rest == queue[..k] + ([queue[k]] + rest);
      DrainIsARun(s, queue[..k], [queue[k]] + rest, d, policy);
      var actions := DrainActions(s.pool, queue, policy, d);
      assert actions[..k] == DrainActions(s.pool, queue[..k], policy, d);
      var (q, left) := DrainAll(s.pool, queue[..k], policy);
      DrainLast(s, q, d, queue[k], rest, left, policy(k, q, queue[k]));
    }
  }

  // ---------- the class ----------

  lemma DoneOne(reqs: map<RType, real>, todo: set<RType>, rt: RType)
    requires rt in todo && todo <= reqs.Keys
    ensures rt !in reqs - todo && reqs - (todo - {rt}) == (reqs - todo)[rt := reqs[rt]]
  {
  }

  /** The node after one type is booked, or given back. */
  function TakenType(m: Node, rt: RType, amt: real): Node {
    m.(res := m.res[rt := Get(m.res, rt) - amt], alloc := m.alloc[rt := Get(m.alloc, rt) + amt])
  }

  function GivenType(m: Node, rt: RType, amt: real): Node {
    m.(res := m.res[rt := Get(m.res, rt) + amt], alloc := m.alloc[rt := Max(0.0, Get(m.alloc, rt) - amt)])
  }

  lemma TakeOne(n: Node, reqs: map<RType, real>, todo: set<RType>, rt: RType)
    requires rt in todo && todo <= reqs.Keys
    ensures Take(n, reqs - (todo - {rt})) == TakenType(Take(n, reqs - todo), rt, reqs[rt])
  {
    DoneOne(reqs, todo, rt);
    MinusOne(n.res, reqs - todo, rt, reqs[rt]);
    PlusOne(n.alloc, reqs - todo, rt, reqs[rt]);
  }

  lemma GiveOne(n: Node, reqs: map<RType, real>, todo: set<RType>, rt: RType)
    requires rt in todo && todo <= reqs.Keys
    ensures GiveBack(n, reqs - (todo - {rt})) == GivenType(GiveBack(n, reqs - todo), rt, reqs[rt])
  {
    DoneOne(reqs, todo, rt);
    PlusOne(n.res, reqs - todo, rt, reqs[rt]);
    MinusClampedOne(n.alloc, reqs - todo, rt, reqs[rt]);
  }

  lemma NothingDone(n: Node, reqs: map<RType, real>)
    ensures Take(n, reqs - reqs.Keys) == n && GiveBack(n, reqs - reqs.Keys) == n
  {
    assert reqs - reqs.Keys == map[];
    assert Minus(n.res, map[]) == n.res && Plus(n.res, map[]) == n.res;
    assert Plus(n.alloc, map[]) == n.alloc && MinusClamped(n.alloc, map[]) == n.alloc;
  }

  class ResourcePool {
    var nodes: map<NodeId, Node>
    var reserves: map<ResId, Reservation>
    var pendingQueue: seq<Reservation>
    var policies: set<string>

    constructor ()
      ensures View() == Pool(map[], map[], [], {DEFAULT_POLICY, "cost-aware"})
    {
      nodes, reserves, pendingQueue := map[], map[], [];
      policies := {DEFAULT_POLICY, "cost-aware"};
    }

    function View(): Pool
      reads this
    {
      Pool(nodes, reserves, pendingQueue, policies)
    }

    /** One amount moves from free to handed out. */
    method TakeType(id: NodeId, rt: RType, amt: real)
      requires id in nodes
      modifies `nodes
      ensures nodes == old(nodes)[id := TakenType(old(nodes)[id], rt, amt)]
    {
      var m := nodes[id];
      m := m.(res := m.res[rt := Get(m.res, rt) - amt]);
      m := m.(alloc := m.alloc[rt := Get(m.alloc, rt) + amt]);
      nodes := nodes[id := m];
    }

    /** One amount moves back, with the handed-out side clamped at zero. */
    method GiveType(id: NodeId, rt: RType, amt: real)
      requires id in nodes
      modifies `nodes
      ensures nodes == old(nodes)[id := GivenType(old(nodes)[id], rt, amt)]
    {
      var m := nodes[id];
      m := m.(res := m.res[rt := Get(m.res, rt) + amt]);
      m := m.(alloc := m.alloc[rt := Max(0.0, Get(m.alloc, rt) - amt)]);
      nodes := nodes[id := m];
    }

    /** The booking loop: every required type moves from free to handed out. */
    method TakeFrom(id: NodeId, reqs: map<RType, real>)
      requires id in nodes
      modifies `nodes
      ensures nodes == old(nodes)[id := Take(old(nodes)[id], reqs)]
    {
      ghost var n := nodes[id];
      NothingDone(n, reqs);
      var todo := reqs.Keys;
      while todo != {}
        invariant todo <= reqs.Keys
        invariant nodes == old(nodes)[id := Take(n, reqs - todo)]
      {
        var rt :| rt in todo;
        TakeOne(n, reqs, todo, rt);
        TakeType(id, rt, reqs[rt]);
        todo := todo - {rt};
      }
      assert reqs - {} == reqs;
    }

    /** The release loop: every required type moves back, with the handed-out side clamped at zero. */
    method GiveTo(id: NodeId, reqs: map<RType, real>)
      requires id in nodes
      modifies `nodes
      ensures nodes == old(nodes)[id := GiveBack(old(nodes)[id], reqs)]
    {
      ghost var n := nodes[id];
      NothingDone(n, reqs);
      var todo := reqs.Keys;
      while todo != {}
        invariant todo <= reqs.Keys
        invariant nodes == old(nodes)[id := GiveBack(n, reqs - todo)]
      {
        var rt :| rt in todo;
        GiveOne(n, reqs, todo, rt);
        GiveType(id, rt, reqs[rt]);
        todo := todo - {rt};
      }
      assert reqs - {} == reqs;
    }

    /** The capacity check on a chosen node, where a missing type counts as nothing left. */
    method HasRoom(id: NodeId, reqs: map<RType, real>) returns (ok: bool)
      requires id in nodes
      ensures ok == Fits(nodes[id].res, reqs)
    {
      var todo := reqs.Keys;
      while todo != {}
        invariant todo <= reqs.Keys
        invariant forall rt :: rt in reqs && rt !in todo ==> Get(nodes[id].res, rt) >= reqs[rt]
      {
        var rt :| rt in todo;
        if Get(nodes[id].res, rt) < reqs[rt] {
          return false;
        }
        todo := todo - {rt};
      }
      return true;
    }

    /** The first locked phase of Allocate, with its scan for a node that could take the request. */
    method Admit(wanted: Reservation, generated: ResId) returns (v: Verdict, req: Reservation)
      modifies `pendingQueue
      ensures req == Named(old(View()), wanted, generated)
      ensures (View(), v) == Pools.Admit(old(View()), req)
    {
      var id := EnsureUniqueReservationID(reserves.Keys, wanted.id, generated);
      req := wanted.(id := id);
      if PolicyName(req) !in policies {
        if req.soft {
          pendingQueue := pendingQueue + [req];
          return Queued, req;
        }
        return NoPolicy, req;
      }
      var canSatisfy := false;
      var todo := nodes.Keys;
      while todo != {} && !canSatisfy
        invariant todo <= nodes.Keys
        invariant canSatisfy ==> exists id :: id in nodes && Candidate(id, nodes[id], req)
        invariant !canSatisfy ==> forall id :: id in nodes && id !in todo ==> !Candidate(id, nodes[id], req)
        decreases todo
      {
        var id :| id in todo;
        canSatisfy := Candidate(id, nodes[id], req);
        todo := todo - {id};
      }
      if !canSatisfy {
        if req.soft {
          pendingQueue := pendingQueue + [req];
          return Queued, req;
        }
        return NoResource, req;
      }
      return Proceed, req;
    }

    /** The last locked phase of Allocate. */
    method Book(req: Reservation, node: NodeId) returns (v: Verdict)
      modifies `nodes, `reserves
      ensures (View(), v) == Pools.Book(old(View()), req, node, false)
    {
      if node !in nodes {
        return NodeGone;
      }
      var ok := HasRoom(node, Reqs(req));
      if !ok {
        return NoResource;
      }
      TakeFrom(node, Reqs(req));
      reserves := reserves[req.id := req];
      return Booked;
    }

    method Free(id: ResId) returns (ok: bool)
      modifies `nodes, `reserves
      ensures ok <==> id in old(reserves)
      ensures View() == Pools.Free(old(View()), id)
    {
      if id !in reserves {
        return false;
      }
      var r := reserves[id];
      if r.node in nodes {
        GiveTo(r.node, Reqs(r));
      }
      reserves := reserves - {id};
      return true;
    }

    method FreeMany(ids: seq<ResId>)
      modifies `nodes, `reserves
      ensures View() == Pools.FreeMany(old(View()), ids)
    {
      for i := 0 to |ids|
        invariant View() == Pools.FreeMany(old(View()), ids[..i])
      {
        assert ids[..i + 1][..i] == ids[..i];
        var _ := Free(ids[i]);
      }
      assert ids[..|ids|] == ids;
    }

    /** One queued request: booked on the node the policy names, if that still works. */
    method TryQueued(req: Reservation, answer: Option<NodeId>) returns (booked: bool)
      modifies `nodes, `reserves
      ensures (View(), booked) == DrainStep(old(View()), req, answer)
    {
      if PolicyName(req) !in policies || answer.None? || answer.value !in nodes {
        return false;
      }
      var ok := HasRoom(answer.value, Reqs(req));
      if !ok {
        return false;
      }
      TakeFrom(answer.value, Reqs(req));
      reserves := reserves[req.id := req.(node := answer.value)];
      return true;
    }

    /** Takes the whole queue, tries every request once in order, and puts the others back. */
    method ProcessPendingOnce(policy: (nat, Pool, Reservation) -> Option<NodeId>)
      modifies `nodes, `reserves, `pendingQueue
      ensures var p := old(View());
              var (q, left) := DrainAll(p.(pending := []), p.pending, policy);
              View() == q.(pending := q.pending + left)
    {
      if pendingQueue == [] {
        return;
      }
      var queue := pendingQueue;
      pendingQueue := [];
      ghost var p := View();
      var remaining := [];
      for i := 0 to |queue|
        invariant View() == DrainAll(p, queue[..i], policy).0
        invariant remaining == DrainAll(p, queue[..i], policy).1
      {
        DrainAllMore(p, queue, i, policy);
        var answer := policy(i, View(), queue[i]);
        var booked := TryQueued(queue[i], answer);
        if !booked {
          remaining := remaining + [queue[i]];
        }
      }
      assert queue[..|queue|] == queue;
      pendingQueue := pendingQueue + remaining;
    }

    /** Moves a reservation within the locked region: gives back at its node, takes at the new one. */
    method Relocate(id: ResId, to: NodeId)
      requires CanMove(View(), id, to)
      modifies `nodes, `reserves
      ensures View() == Move(old(View()), id, to)
    {
      ghost var p := View();
      var r := reserves[id];
      if r.node in nodes {
        GiveTo(r.node, Reqs(r));
      }
      assert nodes == Pools.Free(p, id).nodes;
      TakeFrom(to, Reqs(r));
      MoveFrame(p, id, to);
      reserves := reserves[id := r.(node := to)];
    }

    /** The search for a node that can take the reservation. */
    method FindTarget(id: ResId, reason: Reason) returns (to: Option<NodeId>)
      requires id in reserves
      ensures to.Some? ==> Target(View(), id, reason, to.value)
      ensures to.None? ==> forall t :: t in nodes ==> !Target(View(), id, reason, t)
    {
      var r := reserves[id];
      var todo := nodes.Keys;
      while todo != {}
        invariant todo <= nodes.Keys
        invariant forall t :: t in nodes && t !in todo ==> !Target(View(), id, reason, t)
      {
        var tid :| tid in todo;
        todo := todo - {tid};
        if tid == r.node || nodes[tid].status != Online {
          continue;
        }
        var ok := HasRoom(tid, Reqs(r));
        if reason.Overload? && !Matches(tid, nodes[tid], r) {
          ok := false;
        }
        if ok {
          return Some(tid);
        }
      }
      return None;
    }

    /** Looks at one reservation: moves it if it is due and some node can take it. */
    method VisitOne(id: ResId, reason: Reason) returns (ghost v: Visit)
      requires id in reserves
      modifies `nodes, `reserves
      ensures v.id == id && v.reason == reason && Rightly(old(View()), v)
      ensures View() == if v.to.Some? then Move(old(View()), id, v.to.value) else old(View())
    {
      v := Visit(id, reason, None);
      if Due(reason, reserves[id]) {
        var to := FindTarget(id, reason);
        v := Visit(id, reason, to);
        if to.Some? {
          Relocate(id, to.value);
        }
      }
    }

    /** Looks at every reservation once. */
    method VisitAll(reason: Reason) returns (ghost visits: seq<Visit>)
      modifies `nodes, `reserves
      ensures Passed(old(View()), visits) == Some(View())
      ensures forall i :: 0 <= i < |visits| ==> visits[i].reason == reason
      ensures forall i, j :: 0 <= i < j < |visits| ==> visits[i].id != visits[j].id
      ensures Ids(visits) == old(reserves).Keys
    {
      visits := [];
      var todo := reserves.Keys;
      while todo != {}
        invariant Passed(old(View()), visits) == Some(View())
        invariant todo <= reserves.Keys == old(reserves).Keys
        invariant forall i :: 0 <= i < |visits| ==> visits[i].reason == reason && visits[i].id !in todo
        invariant forall i, j :: 0 <= i < j < |visits| ==> visits[i].id != visits[j].id
        invariant Ids(visits) == old(reserves).Keys - todo
      {
        var id :| id in todo;
        ghost var before := View();
        var v := VisitOne(id, reason);
        assert (visits + [v])[..|visits|] == visits;
        IdsAppend(visits, v);
        visits := visits + [v];
        PassFrame(old(View()), visits);
        todo := todo - {id};
      }
    }

    /** The deadline watcher's pass: reservations with less than 30 seconds left move if they can. */
    method EnforceDeadlines(now: real) returns (ghost visits: seq<Visit>)
      modifies `nodes, `reserves
      ensures Passed(old(View()), visits) == Some(View())
      ensures forall i :: 0 <= i < |visits| ==> visits[i].reason == Deadline(now)
      ensures forall i, j :: 0 <= i < j < |visits| ==> visits[i].id != visits[j].id
      ensures Ids(visits) == old(reserves).Keys
    {
      visits := VisitAll(Deadline(now));
    }

    /** The nodes that are overloaded when the pass starts. */
    method FindOverloaded() returns (overloaded: set<NodeId>)
      ensures overloaded == OverloadedNodes(nodes)
    {
      overloaded := {};
      var todo := nodes.Keys;
      while todo != {}
        invariant todo <= nodes.Keys
        invariant overloaded == set id | id in OverloadedNodes(nodes) && id !in todo
      {
        var id :| id in todo;
        var u := Utilization(nodes[id]);
        if u >= OVERLOADED {
          overloaded := overloaded + {id};
        }
        todo := todo - {id};
      }
    }

    /** For every overloaded node, soft reservations of low priority on it move to any node that can take them. */
    method Rebalance() returns (ghost visits: seq<Visit>)
      modifies `nodes, `reserves
      ensures Passed(old(View()), visits) == Some(View())
      ensures forall v :: v in visits ==> v.reason.Overload? && v.reason.src in OverloadedNodes(old(nodes))
      ensures forall src :: src in OverloadedNodes(old(nodes)) ==> Covers(visits, src, old(reserves).Keys)
    {
      visits := [];
      var overloaded := FindOverloaded();
      var todo := overloaded;
      while todo != {}
        invariant Passed(old(View()), visits) == Some(View())
        invariant reserves.Keys == old(reserves).Keys && todo <= overloaded
        invariant forall v :: v in visits ==> v.reason.Overload? && v.reason.src in overloaded
        invariant forall src :: src in overloaded && src !in todo ==> Covers(visits, src, old(reserves).Keys)
      {
        var src :| src in todo;
        var more := VisitAll(Overload(src));
        PassConcat(old(View()), visits, more);
        AllCovered(more, src);
        forall x | x in overloaded && x !in todo - {src}
          ensures Covers(visits + more, x, old(reserves).Keys)
        {
          CoversMore(visits, more, x, old(reserves).Keys);
        }
        visits := visits + more;
        PassFrame(old(View()), visits);
        todo := todo - {src};
      }
    }
  }
}
