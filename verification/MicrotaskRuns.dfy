/** Runs of the microtask protocol from an empty manager: the invariant, and what it means. */
module MicrotaskRuns {
  import opened Microtask
  import opened MicrotaskTokens
  import opened MicrotaskEffects
  import opened MicrotaskAggregation
  import opened MicrotaskProgress
  import opened Options

  ghost predicate Inv(s: State, agg: seq<Value> -> Value) {
    TokenInv(s) && CountInv(s) && DagInv(s) && AggInv(s, agg) && ProgressInv(s)
  }

  lemma InvStep(s: State, a: Action, agg: seq<Value> -> Value)
    requires Inv(s, agg) && Step(s, a, agg).Some?
    ensures Inv(Step(s, a, agg).value, agg)
  {
    TokensStep(s, a, agg);
    CountsStep(s, a, agg);
    DagsStep(s, a, agg);
    if ChangesDags(a) {
      AggsOfDagChange(s, a, agg);
    } else {
      AggsOfOther(s, a, agg);
    }
    ProgressStep(s, a, agg);
  }

  /** s is the state after the actions, from an empty manager. */
  ghost predicate Reaches(queueCap: nat, steal: bool, actions: seq<Action>, agg: seq<Value> -> Value, s: State) {
    Run(Initial(queueCap, steal), actions, agg) == Some(s)
  }

  lemma {:induction false} InvRun(queueCap: nat, steal: bool, actions: seq<Action>, agg: seq<Value> -> Value, s: State)
    requires Reaches(queueCap, steal, actions, agg, s)
    ensures Inv(s, agg)
  {
    if actions != [] {
      var n := |actions| - 1;
      var p := Run(Initial(queueCap, steal), actions[..n], agg).value;
      InvRun(queueCap, steal, actions[..n], agg, p);
      InvStep(p, actions[n], agg);
    } else {
      InvInitial(queueCap, steal, agg);
    }
  }

  lemma InvInitial(queueCap: nat, steal: bool, agg: seq<Value> -> Value)
    ensures Inv(Initial(queueCap, steal), agg)
  {
  }

  /** In every run, each unfinished task is held exactly once and a finished one nowhere. */
  lemma {:induction false} HeldExactlyOnce(queueCap: nat, steal: bool, actions: seq<Action>, agg: seq<Value> -> Value,
                                           s: State, id: TaskId)
    requires Reaches(queueCap, steal, actions, agg, s)
    ensures s.submitters[id] + InSeq(s.queue, id) + InDispatcher(s.dispatcher, id)
              + InChannels(s.chans, id) + InHandlers(s.chans, id)
         == if id in s.tasks && !Final(s.tasks[id]) then 1 else 0
  {
    InvRun(queueCap, steal, actions, agg, s);
    assert TokenOk(s, id);
  }

  /** In every run, no task is on two handlers at once. */
  lemma NeverRunsTwiceAtOnce(queueCap: nat, steal: bool, actions: seq<Action>, agg: seq<Value> -> Value, s: State,
                             c: nat, d: nat, id: TaskId)
    requires Reaches(queueCap, steal, actions, agg, s)
    requires c < |s.chans| && d < |s.chans| && s.chans[c].handler == Busy(id) == s.chans[d].handler
    ensures c == d
  {
    InvRun(queueCap, steal, actions, agg, s);
    assert TokenOk(s, id);
    if c < d {
      SumOfHandlers(s.chans, c, d, id);
    } else if d < c {
      SumOfHandlers(s.chans, d, c, id);
    }
  }

  /** In every run, a microtask is run at most MaxRetries + 1 times, and exactly that often if it failed. */
  lemma RunsAreBounded(queueCap: nat, steal: bool, actions: seq<Action>, agg: seq<Value> -> Value, s: State, id: TaskId)
    requires Reaches(queueCap, steal, actions, agg, s) && id in s.tasks
    ensures s.tasks[id].runs <= s.tasks[id].maxRetries + 1
    ensures s.tasks[id].status == Failed ==> s.tasks[id].runs == s.tasks[id].maxRetries + 1
  {
    InvRun(queueCap, steal, actions, agg, s);
  }

  /** Done and failed are absorbing: whatever happens after a state, its finished tasks stay as they are. */
  lemma {:induction false} FinishedStays(queueCap: nat, steal: bool, actions: seq<Action>, more: seq<Action>,
                                         agg: seq<Value> -> Value, s: State, r: State)
    requires Reaches(queueCap, steal, actions, agg, s) && Run(s, more, agg) == Some(r)
    ensures Inv(r, agg) && Keeps(s, r)
  {
    if more == [] {
      InvRun(queueCap, steal, actions, agg, s);
    } else {
      var n := |more| - 1;
      var p := Run(s, more[..n], agg).value;
      FinishedStays(queueCap, steal, actions, more[..n], agg, s, p);
      StepKeeps(p, more[n], agg);
      InvStep(p, more[n], agg);
    }
  }

  /** All slices of a root are done, and its result is the aggregate of their results in slice order. */
  ghost predicate Complete(s: State, root: RootId, agg: seq<Value> -> Value)
    requires root in s.dags
  {
    && (forall id :: id in s.dags[root].children ==> id in s.tasks && s.tasks[id].status == Done)
    && s.dags[root].node == Some(agg(Results(s.tasks, s.dags[root].children)))
  }

  /** In every run, a root that got no slice after one of its slices had ended is done only when it is complete;
      then the aggregated results are those of its slices, one each and in order. */
  lemma RootDoneMeansSlicesDone(queueCap: nat, steal: bool, actions: seq<Action>, agg: seq<Value> -> Value, s: State,
                                root: RootId)
    requires Reaches(queueCap, steal, actions, agg, s)
    requires root in s.dags && root !in s.late && s.dags[root].node.Some?
    ensures var slices := s.dags[root].children;
            && Complete(s, root, agg) && |Results(s.tasks, slices)| == |slices|
            && (forall i :: 0 <= i < |slices| ==>
                 slices[i] in s.tasks && Results(s.tasks, slices)[i] == s.tasks[slices[i]].result)
  {
    InvRun(queueCap, steal, actions, agg, s);
    assert RootOk(s, agg, root) && DagOk(s, root);
    ResultsInOrder(s.tasks, s.dags[root].children);
  }

  /** No aggregation is ever lost, however the slices were linked: once all slices of a root are done it has a result,
      or an aggregation of it is under way, or a handler is about to check it. */
  lemma AggregationIsNeverLost(queueCap: nat, steal: bool, actions: seq<Action>, agg: seq<Value> -> Value, s: State,
                               root: RootId)
    requires Reaches(queueCap, steal, actions, agg, s)
    requires root in s.dags && s.dags[root].children != []
    requires forall id :: id in s.dags[root].children ==> id in s.tasks && s.tasks[id].status == Done
    ensures s.dags[root].node.Some? || Aggregating(s, root) || CheckedNext(s, root)
  {
    InvRun(queueCap, steal, actions, agg, s);
    assert ProgressOk(s, root);
  }

  /** A root with one slice is always such a root. */
  lemma OneSliceIsNeverLate(queueCap: nat, steal: bool, actions: seq<Action>, agg: seq<Value> -> Value, s: State,
                            root: RootId)
    requires Reaches(queueCap, steal, actions, agg, s) && root in s.dags && |s.dags[root].children| <= 1
    ensures root !in s.late
  {
    InvRun(queueCap, steal, actions, agg, s);
    assert DagOk(s, root);
  }

  lemma {:induction false} ResultsInOrder(tasks: map<TaskId, Task>, ids: seq<TaskId>)
    requires forall id :: id in ids ==> id in tasks && tasks[id].status == Done
    ensures |Results(tasks, ids)| == |ids|
    ensures forall i :: 0 <= i < |ids| ==> Results(tasks, ids)[i] == tasks[ids[i]].result
  {
    if ids != [] {
      ResultsInOrder(tasks, ids[..|ids| - 1]);
    }
  }

  // ---------- a root that is done too early ----------

  /** The first slice is linked, submitted, run and done, and its root aggregated, before the second one is linked. */
  function EarlyAggregation(v: Value): seq<Action> {
    ([] + [Link(0, 1)] + [Register(0, 1)]) + ([] + [Handoff(1)] + [Choose(0)])
    + ([] + [SendDirect] + [Report(0, true, v)]) + ([] + [Check(0)] + [Collect(0)])
    + ([] + [Finish(0, [v])] + [Link(0, 2)])
  }

  /** One linked slice, and one worker whose channel is empty. */
  predicate OneSlice(s: State, task: Task) {
    && s.tasks.Keys == {1} && s.tasks[1] == task && 0 in s.dags && s.dags[0].children == [1]
    && s.queue == [] && |s.chans| == 1 && s.chans[0].items == [] && 0 in s.workers && s.workers[0] == 0
  }

  lemma LinkFirst(s: State, agg: seq<Value> -> Value) returns (r: State)
    requires s.tasks == map[] && s.dags == map[] && s.chans == [] && s.queue == [] && s.dispatcher == DIdle
    ensures Run(s, [] + [Link(0, 1)] + [Register(0, 1)], agg) == Some(r)
    ensures OneSlice(r, NewTask(0)) && 1 in r.submitters && r.dispatcher == DIdle && r.chans[0].handler == Idle
  {
    RunMore(s, [], Link(0, 1), agg);
    RunMore(s, [] + [Link(0, 1)], Register(0, 1), agg);
    r := Run(s, [] + [Link(0, 1)] + [Register(0, 1)], agg).value;
  }

  lemma Dispatch(s: State, agg: seq<Value> -> Value) returns (r: State)
    requires OneSlice(s, NewTask(0)) && 1 in s.submitters && s.dispatcher == DIdle && s.chans[0].handler == Idle
    ensures Run(s, [] + [Handoff(1)] + [Choose(0)], agg) == Some(r)
    ensures OneSlice(r, NewTask(0)) && r.dispatcher == Sending(1, 0, 0) && r.chans[0].handler == Idle
  {
    RunMore(s, [], Handoff(1), agg);
    RunMore(s, [] + [Handoff(1)], Choose(0), agg);
    r := Run(s, [] + [Handoff(1)] + [Choose(0)], agg).value;
  }

  lemma DeliverSlice(s: State, agg: seq<Value> -> Value) returns (r: State)
    requires OneSlice(s, NewTask(0)) && s.dispatcher == Sending(1, 0, 0) && s.chans[0].handler == Idle
    ensures Step(s, SendDirect, agg) == Some(r)
    ensures OneSlice(r, NewTask(0).(status := Running, runs := 1)) && r.chans[0].handler == Busy(1)
  {
    r := TryDirect(s, 0).value;
  }

  lemma ReportSlice(s: State, agg: seq<Value> -> Value, v: Value) returns (r: State)
    requires OneSlice(s, NewTask(0).(status := Running, runs := 1)) && s.chans[0].handler == Busy(1)
    ensures Step(s, Report(0, true, v), agg) == Some(r)
    ensures OneSlice(r, Task(0, Done, 0, MAX_RETRIES, v, 1))
    ensures r.chans[0].handler.Checking? && r.chans[0].handler.root == 0 && r.chans[0].handler.children == [1]
  {
    r := TryReport(s, 0, true, v).value;
  }

  lemma RunSlice(s: State, agg: seq<Value> -> Value, v: Value) returns (r: State)
    requires OneSlice(s, NewTask(0)) && s.dispatcher == Sending(1, 0, 0) && s.chans[0].handler == Idle
    ensures Run(s, [] + [SendDirect] + [Report(0, true, v)], agg) == Some(r)
    ensures OneSlice(r, Task(0, Done, 0, MAX_RETRIES, v, 1))
    ensures r.chans[0].handler.Checking? && r.chans[0].handler.root == 0 && r.chans[0].handler.children == [1]
  {
    var running := DeliverSlice(s, agg);
    RunMore(s, [], SendDirect, agg);
    r := ReportSlice(running, agg, v);
    RunMore(s, [] + [SendDirect], Report(0, true, v), agg);
  }

  lemma CheckSlice(s: State, agg: seq<Value> -> Value, v: Value) returns (r: State)
    requires OneSlice(s, Task(0, Done, 0, MAX_RETRIES, v, 1))
    requires s.chans[0].handler.Checking? && s.chans[0].handler.root == 0 && s.chans[0].handler.children == [1]
    ensures Step(s, Check(0), agg) == Some(r) && OneSlice(r, s.tasks[1]) && Spawned(0) in r.aggs
  {
    assert AllDone(s.tasks, [1]);
    r := TryCheck(s, 0).value;
  }

  lemma CollectSlice(s: State, agg: seq<Value> -> Value, v: Value) returns (r: State)
    requires OneSlice(s, Task(0, Done, 0, MAX_RETRIES, v, 1)) && Spawned(0) in s.aggs
    ensures Step(s, Collect(0), agg) == Some(r) && OneSlice(r, s.tasks[1]) && Collected(0, [v]) in r.aggs
  {
    OneResult(s.tasks, v);
    r := TryCollect(s, 0).value;
  }

  lemma {:induction false} OneResult(tasks: map<TaskId, Task>, v: Value)
    requires 1 in tasks && tasks[1] == Task(0, Done, 0, MAX_RETRIES, v, 1)
    ensures Results(tasks, [1]) == [v]
  {
    assert [1][..0] == [];
  }

  lemma StartAggregation(s: State, agg: seq<Value> -> Value, v: Value) returns (r: State)
    requires OneSlice(s, Task(0, Done, 0, MAX_RETRIES, v, 1))
    requires s.chans[0].handler.Checking? && s.chans[0].handler.root == 0 && s.chans[0].handler.children == [1]
    ensures Run(s, [] + [Check(0)] + [Collect(0)], agg) == Some(r)
    ensures OneSlice(r, s.tasks[1]) && Collected(0, [v]) in r.aggs
  {
    var checked := CheckSlice(s, agg, v);
    RunMore(s, [], Check(0), agg);
    r := CollectSlice(checked, agg, v);
    RunMore(s, [] + [Check(0)], Collect(0), agg);
  }

  lemma FinishAndLink(s: State, agg: seq<Value> -> Value, v: Value) returns (r: State)
    requires OneSlice(s, Task(0, Done, 0, MAX_RETRIES, v, 1)) && Collected(0, [v]) in s.aggs
    ensures Run(s, [] + [Finish(0, [v])] + [Link(0, 2)], agg) == Some(r)
    ensures DoneEarly(r, agg, v, 2)
  {
    RunMore(s, [], Finish(0, [v]), agg);
    RunMore(s, [] + [Finish(0, [v])], Link(0, 2), agg);
    r := Run(s, [] + [Finish(0, [v])] + [Link(0, 2)], agg).value;
  }

  lemma {:induction false} RunMore(s: State, actions: seq<Action>, a: Action, agg: seq<Value> -> Value)
    ensures Run(s, actions + [a], agg) == match Run(s, actions, agg) case None => None case Some(r) => Step(r, a, agg)
  {
    assert (actions + [a])[..|actions|] == actions;
  }

  lemma {:induction false} RunTwo(s: State, x: seq<Action>, y: seq<Action>, agg: seq<Value> -> Value)
    requires Run(s, x, agg).Some?
    ensures Run(s, x + y, agg) == Run(Run(s, x, agg).value, y, agg)
  {
    if y == [] {
      assert x + y == x;
    } else {
      RunTwo(s, x, y[..|y| - 1], agg);
      assert (x + y)[..|x + y| - 1] == x + y[..|y| - 1];
    }
  }

  /** The third and later slices are linked. */
  function LinkRest(n: nat): seq<Action> {
    if n <= 2 then [] else LinkRest(n - 1) + [Link(0, n)]
  }

  /** A root with n slices, numbered from 1, that is done with the first one's result while the last one waits. */
  ghost predicate DoneEarly(s: State, agg: seq<Value> -> Value, v: Value, n: nat) {
    && 0 in s.dags && |s.dags[0].children| == n && n > 0 && s.dags[0].children[n - 1] == n
    && s.dags[0].node == Some(agg([v])) && n in s.tasks && s.tasks[n].status == Pending
    && forall id :: id in s.tasks ==> id <= n
  }

  lemma {:induction false} LinkMore(s: State, agg: seq<Value> -> Value, v: Value, n: nat) returns (r: State)
    requires n >= 2 && DoneEarly(s, agg, v, 2)
    ensures Run(s, LinkRest(n), agg) == Some(r) && DoneEarly(r, agg, v, n)
  {
    if n == 2 {
      r := s;
    } else {
      var p := LinkMore(s, agg, v, n - 1);
      RunMore(s, LinkRest(n - 1), Link(0, n), agg);
      r := TryLink(p, 0, n).value;
    }
  }

  lemma {:induction false} AggregatedEarly(queueCap: nat, steal: bool, agg: seq<Value> -> Value, v: Value)
    returns (s: State)
    ensures Reaches(queueCap, steal, EarlyAggregation(v), agg, s) && DoneEarly(s, agg, v, 2)
  {
    var s0 := Initial(queueCap, steal);
    var s1 := LinkFirst(s0, agg);
    var s2 := Dispatch(s1, agg);
    var s3 := RunSlice(s2, agg, v);
    var s4 := StartAggregation(s3, agg, v);
    s := FinishAndLink(s4, agg, v);
    var linked, dispatched := [] + [Link(0, 1)] + [Register(0, 1)], [] + [Handoff(1)] + [Choose(0)];
    var ran, started := [] + [SendDirect] + [Report(0, true, v)], [] + [Check(0)] + [Collect(0)];
    RunTwo(s0, linked, dispatched, agg);
    RunTwo(s0, linked + dispatched, ran, agg);
    RunTwo(s0, linked + dispatched + ran, started, agg);
    RunTwo(s0, linked + dispatched + ran + started, [] + [Finish(0, [v])] + [Link(0, 2)], agg);
  }

  /** Slices are handed out while later ones are still being linked. For any number of slices from two on, the root
      can therefore be done, with the first slice's result alone, while the last one has not been started. */
  lemma {:induction false} RootDoneTooEarly(queueCap: nat, steal: bool, agg: seq<Value> -> Value, v: Value, n: nat)
    returns (s: State)
    requires n >= 2
    ensures Reaches(queueCap, steal, EarlyAggregation(v) + LinkRest(n), agg, s) && DoneEarly(s, agg, v, n)
  {
    var p := AggregatedEarly(queueCap, steal, agg, v);
    s := LinkMore(p, agg, v, n);
    RunTwo(Initial(queueCap, steal), EarlyAggregation(v), LinkRest(n), agg);
  }

  /** In every run, a root with n slices is done only when it is complete. */
  ghost predicate DoneMeansComplete(queueCap: nat, steal: bool, agg: seq<Value> -> Value, n: nat) {
    forall actions, s, root |
      Reaches(queueCap, steal, actions, agg, s) && root in s.dags && |s.dags[root].children| == n
      && s.dags[root].node.Some? :: Complete(s, root, agg)
  }

  /** That holds for a root that is not sliced into several slices, and for no other. */
  lemma {:induction false} OnlySingleSlices(queueCap: nat, steal: bool, agg: seq<Value> -> Value, n: nat)
    ensures DoneMeansComplete(queueCap, steal, agg, n) <==> n <= 1
  {
    if n <= 1 {
      forall actions, s, root |
        Reaches(queueCap, steal, actions, agg, s) && root in s.dags && |s.dags[root].children| == n
        && s.dags[root].node.Some?
        ensures Complete(s, root, agg)
      {
        OneSliceIsNeverLate(queueCap, steal, actions, agg, s, root);
        RootDoneMeansSlicesDone(queueCap, steal, actions, agg, s, root);
      }
    } else {
      var s := RootDoneTooEarly(queueCap, steal, agg, Nil, n);
      assert n in s.dags[0].children;
      assert !Complete(s, 0, agg);
    }
  }
}
