/** An aggregation that is due is never lost: it is done, under way, or about to be started. */
module MicrotaskProgress {
  import opened Microtask
  import opened MicrotaskTokens
  import opened MicrotaskEffects
  import opened MicrotaskAggregation
  import opened Options

  ghost predicate Aggregating(s: State, root: RootId) {
    Spawned(root) in s.aggs || exists results :: Collected(root, results) in s.aggs
  }

  predicate Checks(c: Chan, root: RootId) { c.handler.Checking? && c.handler.root == root }

  /** Some handler will check the root after its report. */
  ghost predicate CheckedNext(s: State, root: RootId) {
    exists c :: 0 <= c < |s.chans| && Checks(s.chans[c], root)
  }

  ghost predicate ProgressOk(s: State, root: RootId) {
    root in s.dags && s.dags[root].children != [] && AllDone(s.tasks, s.dags[root].children) ==>
      s.dags[root].node.Some? || Aggregating(s, root) || CheckedNext(s, root)
  }

  ghost predicate ProgressInv(s: State) {
    forall root :: ProgressOk(s, root)
  }

  /** Only a successful report makes the last slice of a root done, and its handler then checks that root. */
  lemma NewlyDone(s: State, a: Action, agg: seq<Value> -> Value, root: RootId)
    requires TokenInv(s) && DagOk(s, root) && Step(s, a, agg).Some? && root in s.dags
    requires var children := s.dags[root].children;
             !AllDone(s.tasks, children) && AllDone(Step(s, a, agg).value.tasks, children)
    ensures CheckedNext(Step(s, a, agg).value, root)
  {
    var r := Step(s, a, agg).value;
    var id :| id in s.dags[root].children && id in s.tasks && s.tasks[id].status != Done;
    StepEffect(s, a, agg);
    OnlyReportsFinish(s.tasks, r.tasks, EffectOf(s, a), id);
    assert Checks(r.chans[a.chan], root);
  }

  lemma OnlyReportsFinish(t: map<TaskId, Task>, u: map<TaskId, Task>, e: Effect, id: TaskId)
    requires HasEffect(t, u, e) && id in t && t[id].status != Done && id in u && u[id].status == Done
    ensures e.Finished? && e.id == id && e.success
  {
  }

  /** A handler that is to check a root keeps that until it does. */
  lemma CheckingStays(s: State, a: Action, agg: seq<Value> -> Value, c: nat, root: RootId)
    requires Step(s, a, agg).Some? && c < |s.chans| && Checks(s.chans[c], root) && a != Check(c)
    ensures CheckedNext(Step(s, a, agg).value, root)
  {
    var r := Step(s, a, agg).value;
    if IsMove(a) {
      StepIsMove(s, a, agg);
      MoveKeepsChecking(s, a, c, root);
    }
    assert c < |r.chans| && Checks(r.chans[c], root);
  }

  lemma MoveKeepsChecking(s: State, a: Action, c: nat, root: RootId)
    requires Move(s, a).Some? && c < |s.chans| && Checks(s.chans[c], root)
    ensures c < |Move(s, a).value.chans| && Checks(Move(s, a).value.chans[c], root)
  {
  }

  lemma CheckStarts(s: State, c: nat, root: RootId)
    requires TryCheck(s, c).Some? && Checks(s.chans[c], root) && CheckOk(s, s.chans[c].handler)
    requires root in s.dags && AllDone(s.tasks, s.dags[root].children)
    ensures Aggregating(TryCheck(s, c).value, root)
  {
  }

  /** An aggregation under way goes on until the root has its result. */
  lemma AggregatingStays(s: State, a: Action, agg: seq<Value> -> Value, root: RootId)
    requires Step(s, a, agg).Some? && Aggregating(s, root) && root in s.dags
    ensures var r := Step(s, a, agg).value; Aggregating(r, root) || (root in r.dags && r.dags[root].node.Some?)
  {
    var r := Step(s, a, agg).value;
    if Spawned(root) in s.aggs {
      if a == Collect(root) {
        assert Collected(root, Results(s.tasks, s.dags[root].children)) in r.aggs;
      } else {
        OthersStay(s, a, agg, Spawned(root));
      }
    } else {
      var results :| Collected(root, results) in s.aggs;
      if a != Finish(root, results) {
        OthersStay(s, a, agg, Collected(root, results));
      }
    }
  }

  lemma OthersStay(s: State, a: Action, agg: seq<Value> -> Value, g: Aggregation)
    requires Step(s, a, agg).Some? && g in s.aggs
    requires g.Spawned? ==> a != Collect(g.root)
    requires g.Collected? ==> a != Finish(g.root, g.results)
    ensures g in Step(s, a, agg).value.aggs
  {
    if !a.Check? && !a.Collect? && !a.Finish? {
      AggsFrame(s, a, agg);
    }
  }

  /** A result once written stays. */
  lemma NodeStays(s: State, a: Action, agg: seq<Value> -> Value, root: RootId)
    requires Step(s, a, agg).Some? && root in s.dags && s.dags[root].node.Some?
    ensures var r := Step(s, a, agg).value; root in r.dags && r.dags[root].node.Some?
  {
    if !ChangesDags(a) {
      DagsUntouched(s, a, agg);
    }
  }

  /** What was due before the step still is, or has begun. */
  lemma DueStays(s: State, a: Action, agg: seq<Value> -> Value, root: RootId)
    requires AggInv(s, agg) && ProgressOk(s, root) && Step(s, a, agg).Some? && root in s.dags
    requires s.dags[root].children != [] && AllDone(s.tasks, s.dags[root].children)
    requires root in Step(s, a, agg).value.dags
    ensures var r := Step(s, a, agg).value; r.dags[root].node.Some? || Aggregating(r, root) || CheckedNext(r, root)
  {
    if s.dags[root].node.Some? {
      NodeStays(s, a, agg, root);
    } else if Aggregating(s, root) {
      AggregatingStays(s, a, agg, root);
    } else {
      var c :| 0 <= c < |s.chans| && Checks(s.chans[c], root);
      assert CheckOk(s, s.chans[c].handler);
      if a == Check(c) {
        CheckStarts(s, c, root);
      } else {
        CheckingStays(s, a, agg, c, root);
      }
    }
  }

  /** Only linking changes a root's slices. */
  lemma SlicesStay(s: State, a: Action, agg: seq<Value> -> Value, root: RootId)
    requires Step(s, a, agg).Some? && (a.Link? ==> a.root != root) && root in Step(s, a, agg).value.dags
    ensures Step(s, a, agg).value.dags[root].children == DagOf(s, root).children
  {
    if !ChangesDags(a) {
      DagsUntouched(s, a, agg);
    }
  }

  lemma LinkedIsNotDone(s: State, root: RootId, id: TaskId)
    requires TryLink(s, root, id).Some?
    ensures var r := TryLink(s, root, id).value; !AllDone(r.tasks, r.dags[root].children)
  {
    var r := TryLink(s, root, id).value;
    assert r.dags[root].children[|r.dags[root].children| - 1] == id && r.tasks[id] == NewTask(root);
  }

  lemma ProgressStep(s: State, a: Action, agg: seq<Value> -> Value)
    requires TokenInv(s) && DagInv(s) && AggInv(s, agg) && ProgressInv(s) && Step(s, a, agg).Some?
    ensures ProgressInv(Step(s, a, agg).value)
  {
    forall root
      ensures ProgressOk(Step(s, a, agg).value, root)
    {
      assert ProgressOk(s, root) && DagOk(s, root);
      ProgressAt(s, a, agg, root);
    }
  }

  lemma ProgressAt(s: State, a: Action, agg: seq<Value> -> Value, root: RootId)
    requires TokenInv(s) && DagOk(s, root) && AggInv(s, agg) && ProgressOk(s, root) && Step(s, a, agg).Some?
    ensures ProgressOk(Step(s, a, agg).value, root)
  {
    var r := Step(s, a, agg).value;
    if root in r.dags && r.dags[root].children != [] && AllDone(r.tasks, r.dags[root].children) {
      if a.Link? && a.root == root {
        LinkedIsNotDone(s, root, a.id);
      } else {
        SlicesStay(s, a, agg, root);
        if AllDone(s.tasks, s.dags[root].children) {
          DueStays(s, a, agg, root);
        } else {
          NewlyDone(s, a, agg, root);
        }
      }
    }
  }
}
