/** What one action does to the table of microtasks, and how often handlers run each. */
module MicrotaskEffects {
  import opened Microtask
  import opened MicrotaskTokens
  import opened Options

  predicate Final(t: Task) {
    t.status == Done || t.status == Failed
  }

  /** Tasks are never dropped, and a finished one never changes again. */
  ghost predicate Keeps(s: State, r: State) {
    forall id :: id in s.tasks ==>
      && id in r.tasks && r.tasks[id].parent == s.tasks[id].parent
      && (Final(s.tasks[id]) ==> r.tasks[id] == s.tasks[id])
  }

  /** How a step changes the table of microtasks. */
  datatype Effect = Same | Start(id: TaskId) | Finished(id: TaskId, success: bool, result: Value)
                  | Create(root: RootId, id: TaskId)

  ghost predicate HasEffect(t: map<TaskId, Task>, u: map<TaskId, Task>, e: Effect) {
    match e
    case Same => u == t
    case Start(id) => id in t && t[id].status == Pending && u == Started(t, id)
    case Finished(id, success, result) =>
      id in t && t[id].status == Running && u == t[id := ReportedTask(t[id], success, result)]
    case Create(root, id) => id !in t && u == t[id := NewTask(root)]
  }

  function EffectOf(s: State, a: Action): Effect
    requires a.SendDirect? ==> s.dispatcher.Sending?
    requires a.ForceDirect? ==> s.dispatcher.Holding? && a.worker in s.workers
    requires a.Take? ==> a.chan < |s.chans| && s.chans[a.chan].items != []
    requires a.Report? ==> a.chan < |s.chans| && s.chans[a.chan].handler.Busy?
  {
    match a
    case SendDirect | ForceDirect(_) | Take(_) => Start(Delivered(s, a))
    case Report(c, success, result) => Finished(s.chans[c].handler.task, success, result)
    case Link(root, id) => Create(root, id)
    case _ => Same
  }

  predicate StartsTask(a: Action) {
    a.SendDirect? || a.ForceDirect? || a.Take?
  }

  predicate IsMove(a: Action) {
    || a.Register? || a.Deregister? || a.Enqueue? || a.Handoff? || a.Dequeue? || a.NoWorkers? || a.Choose? || a.Send?
    || a.SendTimeout? || a.Force? || a.Pass? || a.GiveUp?
  }

  lemma StepIsMove(s: State, a: Action, agg: seq<Value> -> Value)
    requires IsMove(a)
    ensures Step(s, a, agg) == Move(s, a)
  {
  }

  lemma TasksUntouched(s: State, a: Action, agg: seq<Value> -> Value)
    requires Step(s, a, agg).Some? && !StartsTask(a) && !a.Report? && !a.Link?
    ensures Step(s, a, agg).value.tasks == s.tasks
  {
    if IsMove(a) {
      StepIsMove(s, a, agg);
    }
  }

  lemma StepEffect(s: State, a: Action, agg: seq<Value> -> Value)
    requires TokenInv(s) && Step(s, a, agg).Some?
    ensures HasEffect(s.tasks, Step(s, a, agg).value.tasks, EffectOf(s, a))
  {
    if StartsTask(a) {
      DeliveryEffect(s, a, agg);
    } else if a.Report? {
      ReportEffect(s, a, agg);
    } else if !a.Link? {
      TasksUntouched(s, a, agg);
    }
  }

  lemma ReportEffect(s: State, a: Action, agg: seq<Value> -> Value)
    requires TokenInv(s) && Step(s, a, agg).Some? && a.Report?
    ensures HasEffect(s.tasks, Step(s, a, agg).value.tasks, Finished(s.chans[a.chan].handler.task, a.success, a.result))
  {
    var id := s.chans[a.chan].handler.task;
    assert TokenOk(s, id);
    OneHandler(s.chans, a.chan, id);
  }

  lemma DeliveryEffect(s: State, a: Action, agg: seq<Value> -> Value)
    requires TokenInv(s) && Step(s, a, agg).Some? && (a.SendDirect? || a.ForceDirect? || a.Take?)
    ensures HasEffect(s.tasks, Step(s, a, agg).value.tasks, Start(Delivered(s, a)))
  {
    assert TokenOk(s, Delivered(s, a));
    DeliveredIsWaiting(s, a, agg);
  }

  lemma StepKeeps(s: State, a: Action, agg: seq<Value> -> Value)
    requires TokenInv(s) && Step(s, a, agg).Some?
    ensures Keeps(s, Step(s, a, agg).value)
  {
    StepEffect(s, a, agg);
    EffectKeeps(s.tasks, Step(s, a, agg).value.tasks, EffectOf(s, a));
  }

  lemma EffectKeeps(t: map<TaskId, Task>, u: map<TaskId, Task>, e: Effect)
    requires HasEffect(t, u, e)
    ensures forall id :: id in t ==> id in u && u[id].parent == t[id].parent && (Final(t[id]) ==> u[id] == t[id])
  {
  }

  lemma DeliveredIsWaiting(s: State, a: Action, agg: seq<Value> -> Value)
    requires Step(s, a, agg).Some? && (a.SendDirect? || a.ForceDirect? || a.Take?)
    ensures Waiting(s, Delivered(s, a)) > 0
  {
    if a.Take? {
      OneChannel(s.chans, a.chan, s.chans[a.chan].items[0]);
    }
  }

  lemma {:induction false} OneChannel(chans: seq<Chan>, c: nat, id: TaskId)
    requires c < |chans|
    ensures InChannels(chans, id) >= InSeq(chans[c].items, id)
  {
    if c > 0 {
      OneChannel(chans[1..], c - 1, id);
    }
  }

  // ---------- attempts and runs ----------

  /** Every run but the current or last successful one ended in a counted failure. */
  predicate CountOk(t: Task) {
    && t.runs == t.attempts + (if t.status == Running || t.status == Done then 1 else 0)
    && t.attempts <= t.maxRetries + 1
    && (t.attempts == t.maxRetries + 1 <==> t.status == Failed)
  }

  ghost predicate CountInv(s: State) {
    forall id :: id in s.tasks ==> CountOk(s.tasks[id])
  }

  lemma CountsStep(s: State, a: Action, agg: seq<Value> -> Value)
    requires TokenInv(s) && CountInv(s) && Step(s, a, agg).Some?
    ensures CountInv(Step(s, a, agg).value)
  {
    StepEffect(s, a, agg);
    EffectCounts(s.tasks, Step(s, a, agg).value.tasks, EffectOf(s, a));
  }

  lemma EffectCounts(t: map<TaskId, Task>, u: map<TaskId, Task>, e: Effect)
    requires HasEffect(t, u, e) && forall id :: id in t ==> CountOk(t[id])
    ensures forall id :: id in u ==> CountOk(u[id])
  {
  }
}
