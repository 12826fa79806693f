/** Where a root's result comes from, whatever the order in which its slices were linked, run and aggregated; and the
    order and bounds of the queues on the way. */
module MicrotaskResults {
  import opened Microtask
  import opened MicrotaskTokens
  import opened MicrotaskEffects
  import opened MicrotaskAggregation
  import opened MicrotaskRuns
  import opened Options

  predicate Increasing(positions: seq<nat>) {
    forall i, j :: 0 <= i < j < |positions| ==> positions[i] < positions[j]
  }

  predicate IsDone(tasks: map<TaskId, Task>, id: TaskId) { id in tasks && tasks[id].status == Done }

  /** The positions are those of the done children, in order, and the values their results. */
  ghost predicate Collects(tasks: map<TaskId, Task>, children: seq<TaskId>, positions: seq<nat>, values: seq<Value>) {
    && Increasing(positions) && |positions| == |values|
    && (forall i: nat :: i in positions <==> i < |children| && IsDone(tasks, children[i]))
    && (forall k :: 0 <= k < |positions| ==>
          && positions[k] < |children| && children[positions[k]] in tasks
          && values[k] == tasks[children[positions[k]]].result)
  }

  lemma CollectsMore(tasks: map<TaskId, Task>, children: seq<TaskId>, positions: seq<nat>, values: seq<Value>,
                     id: TaskId)
    requires Collects(tasks, children, positions, values)
    ensures IsDone(tasks, id) ==>
              Collects(tasks, children + [id], positions + [|children|], values + [tasks[id].result])
    ensures !IsDone(tasks, id) ==> Collects(tasks, children + [id], positions, values)
  {
    forall k | 0 <= k < |positions|
      ensures positions[k] in positions && positions[k] < |children|
    {
    }
    if IsDone(tasks, id) {
      DoneOneMore(tasks, children, positions, values, id);
    }
  }

  lemma DoneOneMore(tasks: map<TaskId, Task>, children: seq<TaskId>, positions: seq<nat>, values: seq<Value>,
                    id: TaskId)
    requires Collects(tasks, children, positions, values) && IsDone(tasks, id)
    ensures Collects(tasks, children + [id], positions + [|children|], values + [tasks[id].result])
  {
    var more := positions + [|children|];
    forall i: nat
      ensures i in more <==> i < |children + [id]| && IsDone(tasks, (children + [id])[i])
    {
      assert i in more <==> i in positions || i == |children|;
    }
  }

  /** What is collected are the results of exactly the done children, one each and in their order. */
  lemma {:induction false} ResultsCollect(tasks: map<TaskId, Task>, children: seq<TaskId>) returns (positions: seq<nat>)
    ensures Collects(tasks, children, positions, Results(tasks, children))
  {
    if children == [] {
      positions := [];
    } else {
      var n := |children| - 1;
      var before := ResultsCollect(tasks, children[..n]);
      CollectsMore(tasks, children[..n], before, Results(tasks, children[..n]), children[n]);
      assert children[..n] + [children[n]] == children;
      positions := if IsDone(tasks, children[n]) then before + [n] else before;
    }
  }

  /** At step k the results of the root were collected as they were then. */
  ghost predicate CollectedAt(queueCap: nat, steal: bool, actions: seq<Action>, agg: seq<Value> -> Value, k: nat,
                              root: RootId, values: seq<Value>) {
    && k < |actions| && actions[k] == Collect(root)
    && var p := Run(Initial(queueCap, steal), actions[..k], agg);
       p.Some? && root in p.value.dags && values == Results(p.value.tasks, p.value.dags[root].children)
  }

  lemma {:induction false} CollectedBefore(queueCap: nat, steal: bool, actions: seq<Action>, agg: seq<Value> -> Value,
                                           n: nat, k: nat, root: RootId, values: seq<Value>)
    requires n <= |actions| && CollectedAt(queueCap, steal, actions[..n], agg, k, root, values)
    ensures CollectedAt(queueCap, steal, actions, agg, k, root, values)
  {
    assert actions[..n][..k] == actions[..k];
  }

  lemma NewlyCollected(s: State, a: Action, agg: seq<Value> -> Value, root: RootId, values: seq<Value>)
    requires Step(s, a, agg).Some? && Collected(root, values) in Step(s, a, agg).value.aggs
    requires Collected(root, values) !in s.aggs
    ensures a == Collect(root) && root in s.dags && values == Results(s.tasks, s.dags[root].children)
  {
    if !a.Check? && !a.Collect? && !a.Finish? {
      AggsFrame(s, a, agg);
    }
  }

  lemma {:induction false} WhenCollected(queueCap: nat, steal: bool, actions: seq<Action>, agg: seq<Value> -> Value,
                                         s: State, root: RootId, values: seq<Value>) returns (k: nat)
    requires Reaches(queueCap, steal, actions, agg, s) && Collected(root, values) in s.aggs
    ensures CollectedAt(queueCap, steal, actions, agg, k, root, values)
  {
    var n := |actions| - 1;
    var p := Run(Initial(queueCap, steal), actions[..n], agg).value;
    if Collected(root, values) in p.aggs {
      k := WhenCollected(queueCap, steal, actions[..n], agg, p, root, values);
      CollectedBefore(queueCap, steal, actions, agg, n, k, root, values);
    } else {
      NewlyCollected(p, actions[n], agg, root, values);
      k := n;
    }
  }

  lemma NodeWritten(s: State, a: Action, agg: seq<Value> -> Value, root: RootId)
    requires Step(s, a, agg).Some? && root in Step(s, a, agg).value.dags
    requires Step(s, a, agg).value.dags[root].node.Some? && DagOf(s, root).node != Step(s, a, agg).value.dags[root].node
    ensures a.Finish? && a.root == root && Collected(root, a.results) in s.aggs
    ensures Step(s, a, agg).value.dags[root].node == Some(agg(a.results))
  {
    if !ChangesDags(a) {
      DagsUntouched(s, a, agg);
    }
  }

  lemma {:induction false} WhenAggregated(queueCap: nat, steal: bool, actions: seq<Action>, agg: seq<Value> -> Value,
                                          s: State, root: RootId) returns (k: nat, values: seq<Value>)
    requires Reaches(queueCap, steal, actions, agg, s) && root in s.dags && s.dags[root].node.Some?
    ensures CollectedAt(queueCap, steal, actions, agg, k, root, values) && s.dags[root].node == Some(agg(values))
  {
    var n := |actions| - 1;
    var p := Run(Initial(queueCap, steal), actions[..n], agg).value;
    if DagOf(p, root).node == s.dags[root].node {
      k, values := WhenAggregated(queueCap, steal, actions[..n], agg, p, root);
    } else {
      NodeWritten(p, actions[n], agg, root);
      values := actions[n].results;
      k := WhenCollected(queueCap, steal, actions[..n], agg, p, root, values);
    }
    CollectedBefore(queueCap, steal, actions, agg, n, k, root, values);
  }

  /** At step j a handler that ran the microtask reported it done with this value. */
  ghost predicate ReportedAt(queueCap: nat, steal: bool, actions: seq<Action>, agg: seq<Value> -> Value, j: nat,
                             id: TaskId, value: Value) {
    && j < |actions| && actions[j].Report? && actions[j].success && actions[j].result == value
    && var p := Run(Initial(queueCap, steal), actions[..j], agg);
       p.Some? && actions[j].chan < |p.value.chans| && p.value.chans[actions[j].chan].handler == Busy(id)
  }

  lemma NewlyDoneBy(s: State, a: Action, agg: seq<Value> -> Value, id: TaskId)
    requires TokenInv(s) && Step(s, a, agg).Some? && id in Step(s, a, agg).value.tasks
    requires Step(s, a, agg).value.tasks[id].status == Done && !(id in s.tasks && s.tasks[id].status == Done)
    ensures a.Report? && a.success && a.chan < |s.chans| && s.chans[a.chan].handler == Busy(id)
    ensures a.result == Step(s, a, agg).value.tasks[id].result
  {
    StepEffect(s, a, agg);
    DoneByEffect(s.tasks, Step(s, a, agg).value.tasks, EffectOf(s, a), id);
  }

  lemma DoneByEffect(t: map<TaskId, Task>, u: map<TaskId, Task>, e: Effect, id: TaskId)
    requires HasEffect(t, u, e) && id in u && u[id].status == Done && !(id in t && t[id].status == Done)
    ensures e.Finished? && e.id == id && e.success && u[id].result == e.result
  {
  }

  /** In every run, the result of a done microtask is what its handler reported with success. */
  lemma {:induction false} WhenReported(queueCap: nat, steal: bool, actions: seq<Action>, agg: seq<Value> -> Value,
                                        s: State, id: TaskId) returns (j: nat)
    requires Reaches(queueCap, steal, actions, agg, s) && id in s.tasks && s.tasks[id].status == Done
    ensures ReportedAt(queueCap, steal, actions, agg, j, id, s.tasks[id].result)
  {
    var n := |actions| - 1;
    var p := Run(Initial(queueCap, steal), actions[..n], agg).value;
    InvRun(queueCap, steal, actions[..n], agg, p);
    if id in p.tasks && p.tasks[id].status == Done {
      StepKeeps(p, actions[n], agg);
      j := WhenReported(queueCap, steal, actions[..n], agg, p, id);
      assert actions[..n][..j] == actions[..j];
    } else {
      NewlyDoneBy(p, actions[n], agg, id);
      j := n;
    }
  }

  /** Each value was reported with success, before, by a handler of the child at its position. */
  ghost predicate AllReported(queueCap: nat, steal: bool, actions: seq<Action>, agg: seq<Value> -> Value,
                              children: seq<TaskId>, positions: seq<nat>, values: seq<Value>) {
    |positions| == |values| && forall x :: 0 <= x < |positions| ==>
      positions[x] < |children|
      && exists j :: ReportedAt(queueCap, steal, actions, agg, j, children[positions[x]], values[x])
  }

  lemma CollectedAreReported(queueCap: nat, steal: bool, actions: seq<Action>, agg: seq<Value> -> Value, s: State,
                             children: seq<TaskId>, positions: seq<nat>, values: seq<Value>)
    requires Reaches(queueCap, steal, actions, agg, s) && Collects(s.tasks, children, positions, values)
    ensures AllReported(queueCap, steal, actions, agg, children, positions, values)
  {
    forall x | 0 <= x < |positions|
      ensures positions[x] < |children|
      ensures exists j :: ReportedAt(queueCap, steal, actions, agg, j, children[positions[x]], values[x])
    {
      assert positions[x] in positions;
      var j := WhenReported(queueCap, steal, actions, agg, s, children[positions[x]]);
    }
  }

  /** In every run, whatever result a root has, late slices or not, it is the aggregate of what was collected at some
      step: for exactly those of its slices that were done then, in slice order, the values that their handlers had
      reported with success. */
  lemma {:induction false} ResultIsFromReports(queueCap: nat, steal: bool, actions: seq<Action>,
                                               agg: seq<Value> -> Value, s: State, root: RootId)
    returns (k: nat, positions: seq<nat>, values: seq<Value>)
    requires Reaches(queueCap, steal, actions, agg, s) && root in s.dags && s.dags[root].node.Some?
    ensures s.dags[root].node == Some(agg(values))
    ensures k < |actions| && actions[k] == Collect(root)
    ensures var p := Run(Initial(queueCap, steal), actions[..k], agg);
            && p.Some? && root in p.value.dags
            && Collects(p.value.tasks, p.value.dags[root].children, positions, values)
            && AllReported(queueCap, steal, actions[..k], agg, p.value.dags[root].children, positions, values)
  {
    k, values := WhenAggregated(queueCap, steal, actions, agg, s, root);
    var p := Run(Initial(queueCap, steal), actions[..k], agg).value;
    positions := ResultsCollect(p.tasks, p.dags[root].children);
    CollectedAreReported(queueCap, steal, actions[..k], agg, p, p.dags[root].children, positions, values);
  }

  // ---------- bounds ----------

  /** The queue keeps to its capacity, and so does every worker's channel. */
  ghost predicate WithinCapacity(s: State) {
    |s.queue| <= s.queueCap && forall c :: 0 <= c < |s.chans| ==> |s.chans[c].items| <= s.chans[c].cap
  }

  lemma CapacityStep(s: State, a: Action, agg: seq<Value> -> Value)
    requires WithinCapacity(s) && Step(s, a, agg).Some?
    ensures WithinCapacity(Step(s, a, agg).value) && Step(s, a, agg).value.queueCap == s.queueCap
  {
    if IsMove(a) {
      StepIsMove(s, a, agg);
      CapacityMove(s, a);
    }
  }

  lemma CapacityMove(s: State, a: Action)
    requires WithinCapacity(s) && Move(s, a).Some?
    ensures WithinCapacity(Move(s, a).value) && Move(s, a).value.queueCap == s.queueCap
  {
  }

  /** In every run, no more microtasks wait in the queue, or in a worker's channel, than it has room for. */
  lemma {:induction false} QueuesStayWithin(queueCap: nat, steal: bool, actions: seq<Action>, agg: seq<Value> -> Value,
                                            s: State)
    requires Reaches(queueCap, steal, actions, agg, s)
    ensures WithinCapacity(s) && |s.queue| <= queueCap && s.queueCap == queueCap
  {
    if actions != [] {
      var n := |actions| - 1;
      var p := Run(Initial(queueCap, steal), actions[..n], agg).value;
      QueuesStayWithin(queueCap, steal, actions[..n], agg, p);
      CapacityStep(p, actions[n], agg);
    }
  }

  // ---------- order ----------

  /** The microtasks put into the queue over a run, in order, and those taken from it by the dispatcher. */
  function PutIn(a: Action): seq<TaskId> { if a.Enqueue? then [a.task] else [] }

  function TakenOut(s: State, a: Action): seq<TaskId> {
    if a.Dequeue? && s.dispatcher.DIdle? && s.queue != [] then [s.queue[0]] else []
  }

  function AllPutIn(actions: seq<Action>): seq<TaskId> {
    if actions == [] then [] else AllPutIn(actions[..|actions| - 1]) + PutIn(actions[|actions| - 1])
  }

  function AllTakenOut(s: State, actions: seq<Action>, agg: seq<Value> -> Value): seq<TaskId> {
    if actions == [] then []
    else
      var n := |actions| - 1;
      AllTakenOut(s, actions[..n], agg)
      + match Run(s, actions[..n], agg)
        case None => []
        case Some(p) => TakenOut(p, actions[n])
  }

  lemma QueueStep(s: State, a: Action, agg: seq<Value> -> Value)
    requires Step(s, a, agg).Some?
    ensures s.queue + PutIn(a) == TakenOut(s, a) + Step(s, a, agg).value.queue
    ensures a.Dequeue? ==> TakenOut(s, a) == [Step(s, a, agg).value.dispatcher.task]
  {
    if IsMove(a) {
      StepIsMove(s, a, agg);
    }
  }

  lemma {:induction false} RunEnds(s0: State, actions: seq<Action>, agg: seq<Value> -> Value, p: State, s: State)
    requires actions != [] && Run(s0, actions[..|actions| - 1], agg) == Some(p) && Run(s0, actions, agg) == Some(s)
    ensures Step(p, actions[|actions| - 1], agg) == Some(s)
  {
  }

  lemma Regroup<T>(taken: seq<T>, before: seq<T>, put: seq<T>, out: seq<T>, after: seq<T>)
    requires before + put == out + after
    ensures (taken + before) + put == (taken + out) + after
  {
    assert (taken + before) + put == taken + (before + put);
    assert taken + (out + after) == (taken + out) + after;
  }

  /** In every run the queue is first in, first out: what was put in is what the dispatcher took out, in that order,
      and then what is still there. */
  lemma {:induction false} QueueIsInOrder(queueCap: nat, steal: bool, actions: seq<Action>, agg: seq<Value> -> Value,
                                          s: State)
    requires Reaches(queueCap, steal, actions, agg, s)
    ensures AllPutIn(actions) == AllTakenOut(Initial(queueCap, steal), actions, agg) + s.queue
  {
    if actions != [] {
      var n := |actions| - 1;
      var s0 := Initial(queueCap, steal);
      var p := Run(s0, actions[..n], agg).value;
      QueueIsInOrder(queueCap, steal, actions[..n], agg, p);
      RunEnds(s0, actions, agg, p, s);
      QueueStep(p, actions[n], agg);
      Regroup(AllTakenOut(s0, actions[..n], agg), p.queue, PutIn(actions[n]), TakenOut(p, actions[n]), s.queue);
    }
  }
}
