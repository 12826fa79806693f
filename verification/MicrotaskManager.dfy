/** The manager's own methods: each locked region updates the fields exactly as the protocol action says. */
module MicrotaskManager {
  import opened Microtask
  import opened Options

  /** The state after the slices are added one by one, as the slicing loop does. */
  function AddSlices(s: State, root: RootId, ids: seq<TaskId>): State {
    if ids == [] then s else AddSlice(AddSlices(s, root, ids[..|ids| - 1]), root, ids[|ids| - 1])
  }

  ghost predicate NewIds(s: State, ids: seq<TaskId>) {
    (forall i, j :: 0 <= i < j < |ids| ==> ids[i] != ids[j]) && forall id :: id in ids ==> id !in s.tasks
  }

  function Links(root: RootId, ids: seq<TaskId>): (actions: seq<Action>)
    ensures |actions| == |ids|
  {
    if ids == [] then [] else Links(root, ids[..|ids| - 1]) + [Link(root, ids[|ids| - 1])]
  }

  /** Under new ids, that is a run of the protocol's linking actions; other actions may come between any two. */
  lemma {:induction false} SlicingIsARun(s: State, root: RootId, ids: seq<TaskId>, agg: seq<Value> -> Value)
    requires NewIds(s, ids)
    ensures Run(s, Links(root, ids), agg) == Some(AddSlices(s, root, ids))
  {
    if ids != [] {
      var n := |ids| - 1;
      NewIdsFirst(s, ids, n);
      SlicingIsARun(s, root, ids[..n], agg);
      assert Links(root, ids)[..n] == Links(root, ids[..n]);
      SlicedTasks(s, root, ids[..n], ids[n]);
    }
  }

  lemma NewIdsFirst(s: State, ids: seq<TaskId>, n: nat)
    requires NewIds(s, ids) && n < |ids|
    ensures NewIds(s, ids[..n]) && ids[n] !in ids[..n] && ids[n] !in s.tasks
  {
  }

  lemma {:induction false} SlicedTasks(s: State, root: RootId, ids: seq<TaskId>, id: TaskId)
    ensures id in AddSlices(s, root, ids).tasks <==> id in s.tasks || id in ids
  {
    if ids != [] {
      SlicedTasks(s, root, ids[..|ids| - 1], id);
      assert ids == ids[..|ids| - 1] + [ids[|ids| - 1]];
    }
  }

  /** The first slice finds its DAG or makes it. */
  lemma DagMade(s: State, root: RootId, id: TaskId)
    ensures AddSlice(s.(dags := s.dags[root := DagOf(s, root)]), root, id) == AddSlice(s, root, id)
  {
  }

  lemma {:induction false} FirstAdded(s: State, root: RootId, ids: seq<TaskId>)
    requires ids != []
    ensures AddSlices(s, root, ids[..1]) == AddSlice(s, root, ids[0])
  {
    assert ids[..1][..0] == [];
  }

  /** The fields a report changes: for a retry, and for a slice that has ended. */
  lemma ReportedFields(s: State, c: nat, id: TaskId, success: bool, result: Value)
    requires c < |s.chans| && id in s.tasks
    ensures var t := ReportedTask(s.tasks[id], success, result);
            var h := Checking(t.parent, DagOf(s, t.parent).children);
            Reported(s, c, id, success, result) ==
              if t.status == Pending then
                s.(tasks := s.tasks[id := t], chans := s.chans[c := s.chans[c].(handler := Idle)],
                   submitters := s.submitters + multiset{id})
              else
                s.(tasks := s.tasks[id := t], chans := s.chans[c := s.chans[c].(handler := h)],
                   ended := s.ended + {t.parent})
  {
    assert s.submitters + multiset{} == s.submitters && s.ended + {} == s.ended;
  }

  class MicroTaskManager {
    var tasks: map<TaskId, Task>
    var dags: map<RootId, Dag>
    var submitters: multiset<TaskId>
    var queue: seq<TaskId>
    const queueCap: nat
    var dispatcher: Dispatcher
    var chans: seq<Chan>
    var workers: map<WorkerId, nat>
    var aggs: multiset<Aggregation>
    const steal: bool
    var passed: set<WorkerId>
    ghost var ended: set<RootId>
    ghost var late: set<RootId>

    constructor (queueSize: nat)
      ensures View() == Initial(queueSize, true)
    {
      tasks, dags, submitters, queue := map[], map[], multiset{}, [];
      queueCap := queueSize;
      dispatcher, chans, workers, aggs := DIdle, [], map[], multiset{};
      steal, passed, ended, late := true, {}, {}, {};
    }

    ghost function View(): State
      reads this
    {
      State(tasks, dags, submitters, queue, queueCap, dispatcher, chans, workers, aggs, steal, passed, ended, late)
    }

    /** One round of the slicing loop: a slice is created, linked under the root and handed to a submitter. */
    method LinkSlice(root: RootId, id: TaskId)
      requires root in dags
      modifies `tasks, `dags, `submitters, `late
      ensures View() == AddSlice(old(View()), root, id)
    {
      tasks := tasks[id := Task(root, Pending, 0, MAX_RETRIES, Nil, 0)];
      dags := dags[root := dags[root].(children := dags[root].children + [id])];
      submitters := submitters + multiset{id};
      late := late + if root in ended then {root} else {};
    }

    /** Slices a root into numSlices tasks (at least one), creating the root's DAG if there is none. */
    method SliceTask(root: RootId, numSlices: int, ids: seq<TaskId>)
      requires |ids| == (if numSlices <= 0 then 1 else numSlices) && NewIds(View(), ids)
      modifies `tasks, `dags, `submitters, `late
      ensures View() == AddSlices(old(View()), root, ids)
    {
      ghost var s := View();
      if root !in dags {
        dags := dags[root := Dag([], None)];
      }
      DagMade(s, root, ids[0]);
      LinkSlice(root, ids[0]);
      FirstAdded(s, root, ids);
      for i := 1 to |ids|
        invariant root in dags && View() == AddSlices(s, root, ids[..i])
      {
        assert ids[..i + 1][..i] == ids[..i];
        LinkSlice(root, ids[i]);
      }
      assert ids[..|ids|] == ids;
    }

    /** The part of ReportResult under the DAG lock: done, retry or permanent failure. */
    method ReportResult(c: nat, success: bool, result: Value) returns (ok: bool)
      requires c < |chans| && chans[c].handler.Busy?
      modifies `tasks, `submitters, `chans, `ended
      ensures ok <==> TryReport(old(View()), c, success, result).Some?
      ensures View() == if ok then TryReport(old(View()), c, success, result).value else old(View())
    {
      var id := chans[c].handler.task;
      if id !in tasks {
        return false;
      }
      ghost var s := View();
      ReportedFields(s, c, id, success, result);
      var t := tasks[id];
      var parent := t.parent;
      if success {
        t := t.(result := result, status := Done);
      } else {
        t := t.(attempts := t.attempts + 1);
        if t.attempts <= t.maxRetries {
          t := t.(status := Pending);
          assert t == ReportedTask(s.tasks[id], success, result);
          tasks := tasks[id := t];
          submitters := submitters + multiset{id};
          chans := chans[c := chans[c].(handler := Idle)];
          return true;
        }
        t := t.(status := Failed);
      }
      assert t == ReportedTask(s.tasks[id], success, result);
      tasks := tasks[id := t];
      ended := ended + {parent};
      var children := if parent in dags then dags[parent].children else [];
      chans := chans[c := chans[c].(handler := Checking(parent, children))];
      return true;
    }

    /** The loop after the lock: are all children done? */
    method ChildrenDone(children: seq<TaskId>) returns (allDone: bool)
      ensures allDone == AllDone(tasks, children)
    {
      allDone := true;
      for i := 0 to |children|
        invariant forall j :: 0 <= j < i && children[j] in tasks ==> tasks[children[j]].status == Done
      {
        if children[i] in tasks && tasks[children[i]].status != Done {
          return false;
        }
      }
    }

    method CheckAggregation(c: nat)
      requires c < |chans| && chans[c].handler.Checking?
      modifies this
      ensures Some(View()) == TryCheck(old(View()), c)
    {
      var h := chans[c].handler;
      var allDone := ChildrenDone(h.children);
      if allDone {
        aggs := aggs + multiset{Spawned(h.root)};
      }
      assert old(aggs) + multiset{} == old(aggs);
      chans := chans[c := chans[c].(handler := Idle)];
    }

    /** The reading half of aggregateResults: results of the done children, in slice order. */
    method CollectResults(children: seq<TaskId>) returns (results: seq<Value>)
      ensures results == Results(tasks, children)
    {
      results := [];
      for i := 0 to |children|
        invariant results == Results(tasks, children[..i])
      {
        var id := children[i];
        assert children[..i + 1][..i] == children[..i];
        if id in tasks && tasks[id].status == Done {
          results := results + [tasks[id].result];
        }
      }
      assert children[..|children|] == children;
    }

    method AggregateResults(root: RootId)
      requires Spawned(root) in aggs && root in dags
      modifies this
      ensures Some(View()) == TryCollect(old(View()), root)
    {
      var results := CollectResults(dags[root].children);
      aggs := aggs - multiset{Spawned(root)} + multiset{Collected(root, results)};
    }

    /** The writing half of aggregateResults. */
    method FinishRoot(root: RootId, results: seq<Value>, agg: seq<Value> -> Value)
      requires Collected(root, results) in aggs && root in dags
      modifies this
      ensures Some(View()) == TryFinish(old(View()), root, results, agg)
    {
      var out := agg(results);
      dags := dags[root := dags[root].(node := Some(out))];
      aggs := aggs - multiset{Collected(root, results)};
    }
  }
}
