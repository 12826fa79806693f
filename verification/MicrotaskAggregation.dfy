/** Slices under their roots, and aggregation after all slices of a root are done. */
module MicrotaskAggregation {
  import opened Microtask
  import opened MicrotaskTokens
  import opened MicrotaskEffects
  import opened Options

  /** A task's root has a DAG. */
  ghost predicate TaskLinked(s: State, id: TaskId) {
    id in s.tasks ==> s.tasks[id].parent in s.dags && s.dags[s.tasks[id].parent].children != []
  }

  /** A DAG's children are tasks of its root; only a root with two slices can have got one late. */
  ghost predicate DagOk(s: State, root: RootId) {
    && (root in s.dags ==> forall id :: id in s.dags[root].children ==> id in s.tasks && s.tasks[id].parent == root)
    && (root in s.ended ==> root in s.dags && s.dags[root].children != [])
    && (root in s.late ==> root in s.ended && |s.dags[root].children| >= 2)
  }

  ghost predicate DagInv(s: State) {
    (forall id :: TaskLinked(s, id)) && (forall root :: DagOk(s, root))
  }

  predicate ChangesDags(a: Action) {
    a.Link? || a.Finish? || a.CreateDag?
  }

  lemma DagsUntouched(s: State, a: Action, agg: seq<Value> -> Value)
    requires Step(s, a, agg).Some? && !ChangesDags(a)
    ensures Step(s, a, agg).value.dags == s.dags
  {
    if IsMove(a) {
      StepIsMove(s, a, agg);
    } else if StartsTask(a) {
      DeliveryKeepsDags(s, a, agg);
    }
  }

  lemma DeliveryKeepsDags(s: State, a: Action, agg: seq<Value> -> Value)
    requires Step(s, a, agg).Some? && StartsTask(a)
    ensures Step(s, a, agg).value.dags == s.dags
  {
  }

  /** The root whose slice a report ends. */
  predicate Ends(s: State, a: Action, root: RootId) {
    && a.Report? && a.chan < |s.chans| && s.chans[a.chan].handler.Busy? && s.chans[a.chan].handler.task in s.tasks
    && s.tasks[s.chans[a.chan].handler.task].parent == root
  }

  lemma HistoryFrame(s: State, a: Action, agg: seq<Value> -> Value)
    requires Step(s, a, agg).Some?
    ensures var r := Step(s, a, agg).value;
            && s.ended <= r.ended && (forall x :: x in r.ended && x !in s.ended ==> Ends(s, a, x))
            && r.late == s.late + if a.Link? && a.root in s.ended then {a.root} else {}
  {
    if IsMove(a) {
      StepIsMove(s, a, agg);
    } else if a.Report? {
      ReportHistory(s, a);
    } else if a.Check? || a.Collect? || a.Finish? {
      AggregationHistory(s, a, agg);
    }
  }

  lemma ReportHistory(s: State, a: Action)
    requires a.Report? && TryReport(s, a.chan, a.success, a.result).Some?
    ensures var r := TryReport(s, a.chan, a.success, a.result).value;
            && s.ended <= r.ended && (forall x :: x in r.ended && x !in s.ended ==> Ends(s, a, x)) && r.late == s.late
  {
  }

  lemma AggregationHistory(s: State, a: Action, agg: seq<Value> -> Value)
    requires Step(s, a, agg).Some? && (a.Check? || a.Collect? || a.Finish?)
    ensures Step(s, a, agg).value.ended == s.ended && Step(s, a, agg).value.late == s.late
  {
  }

  lemma DagsStep(s: State, a: Action, agg: seq<Value> -> Value)
    requires TokenInv(s) && DagInv(s) && Step(s, a, agg).Some?
    ensures DagInv(Step(s, a, agg).value)
  {
    if a.Link? {
      DagsLinked(s, a.root, a.id);
    } else if a.Finish? || a.CreateDag? {
      HistoryFrame(s, a, agg);
      DagReplaced(s, Step(s, a, agg).value, a.root);
    } else {
      DagsUnchanged(s, a, agg);
    }
  }

  lemma DagsUnchanged(s: State, a: Action, agg: seq<Value> -> Value)
    requires TokenInv(s) && DagInv(s) && Step(s, a, agg).Some? && !ChangesDags(a)
    ensures DagInv(Step(s, a, agg).value)
  {
    var r := Step(s, a, agg).value;
    DagsUntouched(s, a, agg);
    HistoryFrame(s, a, agg);
    StepKeeps(s, a, agg);
    forall id
      ensures TaskLinked(r, id)
    {
      assert TaskLinked(s, id);
      if id in r.tasks {
        TasksStay(s, a, agg, id);
      }
    }
    forall x
      ensures DagOk(r, x)
    {
      assert DagOk(s, x);
      if x in r.ended && x !in s.ended {
        assert TaskLinked(s, s.chans[a.chan].handler.task);
      }
    }
  }

  lemma TasksStay(s: State, a: Action, agg: seq<Value> -> Value, id: TaskId)
    requires TokenInv(s) && Step(s, a, agg).Some? && !a.Link? && id in Step(s, a, agg).value.tasks
    ensures id in s.tasks
  {
    StepEffect(s, a, agg);
  }

  lemma DagReplaced(s: State, r: State, root: RootId)
    requires DagInv(s) && r.tasks == s.tasks && root in r.dags && r.dags == s.dags[root := r.dags[root]]
    requires r.dags[root].children == DagOf(s, root).children && r.ended == s.ended && r.late == s.late
    ensures DagInv(r)
  {
    forall id
      ensures TaskLinked(r, id)
    {
      assert TaskLinked(s, id);
    }
    forall x
      ensures DagOk(r, x)
    {
      assert DagOk(s, x);
    }
  }

  lemma DagsLinked(s: State, root: RootId, id: TaskId)
    requires DagInv(s) && id !in s.tasks
    ensures DagInv(AddSlice(s, root, id))
  {
    var r := AddSlice(s, root, id);
    forall x
      ensures TaskLinked(r, x)
    {
      assert TaskLinked(s, x);
    }
    forall x
      ensures DagOk(r, x)
    {
      assert DagOk(s, x);
    }
  }

  ghost predicate CheckOk(s: State, h: Handler) {
    h.Checking? ==>
      && h.root in s.dags && h.root in s.ended && h.children <= s.dags[h.root].children
      && (h.root !in s.late ==> h.children == s.dags[h.root].children)
  }

  /** A root that got no slice late is aggregated only after all its slices are done. */
  ghost predicate AggOk(s: State, agg: seq<Value> -> Value, g: Aggregation) {
    && g.root in s.dags && g.root in s.ended
    && (g.root !in s.late ==>
          && AllDone(s.tasks, s.dags[g.root].children)
          && (g.Collected? ==> g.results == Results(s.tasks, s.dags[g.root].children)))
  }

  ghost predicate RootOk(s: State, agg: seq<Value> -> Value, root: RootId) {
    root in s.dags && s.dags[root].node.Some? ==>
      && root in s.ended
      && (root !in s.late ==>
            && AllDone(s.tasks, s.dags[root].children)
            && s.dags[root].node.value == agg(Results(s.tasks, s.dags[root].children)))
  }

  ghost predicate AggInv(s: State, agg: seq<Value> -> Value) {
    && (forall c :: 0 <= c < |s.chans| ==> CheckOk(s, s.chans[c].handler))
    && (forall g :: g in s.aggs ==> AggOk(s, agg, g))
    && (forall root :: RootOk(s, agg, root))
  }

  lemma {:induction false} ResultsKept(t: map<TaskId, Task>, u: map<TaskId, Task>, children: seq<TaskId>)
    requires forall id :: id in children ==> id in t && id in u && t[id].status == Done && u[id] == t[id]
    ensures Results(u, children) == Results(t, children)
  {
    if children != [] {
      ResultsKept(t, u, children[..|children| - 1]);
    }
  }

  /** Once all slices of a root are done, later steps change neither that nor their results. */
  lemma DoneChildrenKept(s: State, r: State, root: RootId)
    requires Keeps(s, r) && DagInv(s) && root in s.dags && AllDone(s.tasks, s.dags[root].children)
    ensures AllDone(r.tasks, s.dags[root].children)
    ensures Results(r.tasks, s.dags[root].children) == Results(s.tasks, s.dags[root].children)
  {
    assert DagOk(s, root);
    ResultsKept(s.tasks, r.tasks, s.dags[root].children);
  }

  /** A root whose DAG entry a step leaves alone keeps its aggregation facts. */
  lemma RootKept(s: State, r: State, agg: seq<Value> -> Value, root: RootId)
    requires Keeps(s, r) && DagInv(s) && root in s.dags && root in r.dags && r.dags[root] == s.dags[root]
    requires s.ended <= r.ended && s.late <= r.late
    ensures RootOk(s, agg, root) ==> RootOk(r, agg, root)
    ensures forall g: Aggregation {:trigger AggOk(r, agg, g)} :: g.root == root && AggOk(s, agg, g) ==> AggOk(r, agg, g)
  {
    if AllDone(s.tasks, s.dags[root].children) {
      DoneChildrenKept(s, r, root);
    }
  }

  /** A step changes no handler to `Checking` except by a report. */
  lemma HandlersFrame(s: State, a: Action, agg: seq<Value> -> Value, c: nat)
    requires Step(s, a, agg).Some? && c < |Step(s, a, agg).value.chans|
    ensures var h := Step(s, a, agg).value.chans[c].handler;
            h.Checking? ==>
              c < |s.chans| && (h == s.chans[c].handler || ReportsTo(s, a, c, h))
  {
    if IsMove(a) {
      StepIsMove(s, a, agg);
      MoveKeepsHandler(s, a, c);
    } else if a.Report? {
      ReportHandler(s, a.chan, a.success, a.result, c);
    }
  }

  lemma ReportHandler(s: State, chan: nat, success: bool, result: Value, c: nat)
    requires TryReport(s, chan, success, result).Some? && c < |s.chans|
    ensures var h := TryReport(s, chan, success, result).value.chans[c].handler;
            h.Checking? ==> h == s.chans[c].handler || ReportsTo(s, Report(chan, success, result), c, h)
  {
  }

  lemma MoveKeepsHandler(s: State, a: Action, c: nat)
    requires Move(s, a).Some? && c < |Move(s, a).value.chans|
    ensures var h := Move(s, a).value.chans[c].handler; h.Checking? ==> c < |s.chans| && h == s.chans[c].handler
  {
  }

  predicate ReportsTo(s: State, a: Action, c: nat, h: Handler)
    requires c < |s.chans|
  {
    && a.Report? && a.chan == c && s.chans[c].handler.Busy? && s.chans[c].handler.task in s.tasks
    && var root := s.tasks[s.chans[c].handler.task].parent;
       h == Checking(root, DagOf(s, root).children)
  }

  lemma ReportEnds(s: State, a: Action, agg: seq<Value> -> Value, c: nat)
    requires Step(s, a, agg).Some? && a.Report? && c == a.chan
    ensures var r := Step(s, a, agg).value;
            r.chans[c].handler.Checking? ==> r.chans[c].handler.root in r.ended
  {
  }

  lemma CheckKept(s: State, a: Action, agg: seq<Value> -> Value, c: nat)
    requires DagInv(s) && AggInv(s, agg) && Step(s, a, agg).Some?
    requires !ChangesDags(a) && c < |Step(s, a, agg).value.chans|
    ensures CheckOk(Step(s, a, agg).value, Step(s, a, agg).value.chans[c].handler)
  {
    HandlersFrame(s, a, agg, c);
    DagsUntouched(s, a, agg);
    HistoryFrame(s, a, agg);
    if c < |s.chans| {
      assert CheckOk(s, s.chans[c].handler);
      if a.Report? && a.chan == c {
        assert TaskLinked(s, s.chans[c].handler.task);
        ReportEnds(s, a, agg, c);
      }
    }
  }

  lemma AggsFrame(s: State, a: Action, agg: seq<Value> -> Value)
    requires Step(s, a, agg).Some? && !a.Check? && !a.Collect? && !a.Finish?
    ensures Step(s, a, agg).value.aggs == s.aggs
  {
    if IsMove(a) {
      StepIsMove(s, a, agg);
    }
  }

  lemma NewAggregation(s: State, a: Action, agg: seq<Value> -> Value, g: Aggregation)
    requires Step(s, a, agg).Some? && !ChangesDags(a)
    requires a.Check? ==> CheckOk(s, s.chans[a.chan].handler)
    requires a.Collect? ==> AggOk(s, agg, Spawned(a.root))
    requires g in Step(s, a, agg).value.aggs && g !in s.aggs
    ensures AggOk(Step(s, a, agg).value, agg, g)
  {
    if a.Check? {
      CheckSpawns(s, a.chan, agg, g);
    } else if a.Collect? {
      CollectKeeps(s, a.root, agg, g);
    } else {
      AggsFrame(s, a, agg);
    }
  }

  lemma CheckSpawns(s: State, c: nat, agg: seq<Value> -> Value, g: Aggregation)
    requires TryCheck(s, c).Some? && CheckOk(s, s.chans[c].handler)
    requires g in TryCheck(s, c).value.aggs && g !in s.aggs
    ensures AggOk(TryCheck(s, c).value, agg, g)
  {
  }

  lemma CollectKeeps(s: State, root: RootId, agg: seq<Value> -> Value, g: Aggregation)
    requires TryCollect(s, root).Some? && AggOk(s, agg, Spawned(root))
    requires g in TryCollect(s, root).value.aggs && g !in s.aggs
    ensures AggOk(TryCollect(s, root).value, agg, g)
  {
  }

  lemma AggsOfOther(s: State, a: Action, agg: seq<Value> -> Value)
    requires TokenInv(s) && DagInv(s) && AggInv(s, agg) && Step(s, a, agg).Some? && !ChangesDags(a)
    ensures AggInv(Step(s, a, agg).value, agg)
  {
    var r := Step(s, a, agg).value;
    StepKeeps(s, a, agg);
    DagsUntouched(s, a, agg);
    HistoryFrame(s, a, agg);
    forall c | 0 <= c < |r.chans|
      ensures CheckOk(r, r.chans[c].handler)
    {
      CheckKept(s, a, agg, c);
    }
    forall g | g in r.aggs
      ensures AggOk(r, agg, g)
    {
      if g in s.aggs {
        RootKept(s, r, agg, g.root);
      } else {
        if a.Check? {
          assert CheckOk(s, s.chans[a.chan].handler);
        }
        NewAggregation(s, a, agg, g);
      }
    }
    forall root
      ensures RootOk(r, agg, root)
    {
      assert RootOk(s, agg, root);
      if root in s.dags {
        RootKept(s, r, agg, root);
      }
    }
  }

  /** What a change of one DAG entry leaves alone. */
  lemma DagChangeFrame(s: State, a: Action, agg: seq<Value> -> Value)
    requires Step(s, a, agg).Some? && ChangesDags(a)
    ensures var r := Step(s, a, agg).value;
            && r.chans == s.chans && r.aggs <= s.aggs && a.root in r.dags && r.ended == s.ended
            && r.dags == s.dags[a.root := r.dags[a.root]]
            && r.late == s.late + (if a.Link? && a.root in s.ended then {a.root} else {})
            && (!a.Link? ==> r.dags[a.root].children == DagOf(s, a.root).children && r.tasks == s.tasks)
            && (!a.Finish? ==> r.dags[a.root].node == DagOf(s, a.root).node)
  {
  }

  lemma CheckOfDagChange(s: State, a: Action, agg: seq<Value> -> Value, h: Handler)
    requires Step(s, a, agg).Some? && ChangesDags(a) && CheckOk(s, h)
    ensures CheckOk(Step(s, a, agg).value, h)
  {
    DagChangeFrame(s, a, agg);
  }

  /** The root whose entry is changed: a slice makes it late once another has ended, finishing writes the aggregate. */
  lemma DagChangeOfRoot(s: State, a: Action, agg: seq<Value> -> Value)
    requires DagInv(s) && Step(s, a, agg).Some? && ChangesDags(a) && RootOk(s, agg, a.root)
    requires a.Finish? ==> AggOk(s, agg, Collected(a.root, a.results))
    ensures RootOk(Step(s, a, agg).value, agg, a.root)
  {
    if a.Finish? {
      FinishWrites(s, a.root, a.results, agg);
    } else {
      DagChangeFrame(s, a, agg);
    }
  }

  lemma AggOfChangedRoot(s: State, a: Action, agg: seq<Value> -> Value, g: Aggregation)
    requires Step(s, a, agg).Some? && ChangesDags(a) && g.root == a.root && AggOk(s, agg, g)
    ensures AggOk(Step(s, a, agg).value, agg, g)
  {
    DagChangeFrame(s, a, agg);
  }

  lemma FinishWrites(s: State, root: RootId, results: seq<Value>, agg: seq<Value> -> Value)
    requires TryFinish(s, root, results, agg).Some? && AggOk(s, agg, Collected(root, results))
    ensures RootOk(TryFinish(s, root, results, agg).value, agg, root)
  {
  }

  lemma AggsOfDagChange(s: State, a: Action, agg: seq<Value> -> Value)
    requires TokenInv(s) && DagInv(s) && AggInv(s, agg) && Step(s, a, agg).Some? && ChangesDags(a)
    ensures AggInv(Step(s, a, agg).value, agg)
  {
    var r := Step(s, a, agg).value;
    StepKeeps(s, a, agg);
    DagChangeFrame(s, a, agg);
    forall c | 0 <= c < |r.chans|
      ensures CheckOk(r, r.chans[c].handler)
    {
      assert CheckOk(s, s.chans[c].handler);
      CheckOfDagChange(s, a, agg, s.chans[c].handler);
    }
    forall g | g in r.aggs
      ensures AggOk(r, agg, g)
    {
      assert AggOk(s, agg, g);
      if g.root != a.root {
        RootKept(s, r, agg, g.root);
      } else {
        AggOfChangedRoot(s, a, agg, g);
      }
    }
    forall root
      ensures RootOk(r, agg, root)
    {
      assert RootOk(s, agg, root);
      if root == a.root {
        if a.Finish? {
          assert AggOk(s, agg, Collected(a.root, a.results));
        }
        DagChangeOfRoot(s, a, agg);
      } else if root in s.dags {
        RootKept(s, r, agg, root);
      }
    }
  }
}
