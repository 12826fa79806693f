/** The microtask manager as a protocol: submitters, the queue of microtasks, the dispatcher, worker channels,
    handler goroutines, retries and aggregation. Each action is one atomic region of the program;
    tasks are tokens held by goroutines and channels. */
module Microtask {
  import opened Options

  // The program's identifiers are strings; it only compares them.
  type TaskId = nat
  type RootId = nat
  type WorkerId = nat

  const MAX_RETRIES := 3
  const DISPATCH_TRIES := 3

  /** A task result of any type. */
  datatype Value = Nil | Scalar(n: int) | List(items: seq<Value>)

  datatype Status = Pending | Running | Done | Failed

  /** `runs` counts handler invocations; the program keeps no such field. */
  datatype Task = Task(parent: RootId, status: Status, attempts: nat, maxRetries: nat, result: Value, runs: nat)

  /** `node` is the root's own entry once aggregation has made it done. */
  datatype Dag = Dag(children: seq<TaskId>, node: Option<Value>)

  datatype Handler = Idle | Busy(task: TaskId) | Checking(root: RootId, children: seq<TaskId>)

  /** A worker channel with the goroutine that serves it. */
  datatype Chan = Chan(cap: nat, items: seq<TaskId>, handler: Handler)

  datatype Dispatcher = DIdle | Holding(task: TaskId, tries: nat) | Sending(task: TaskId, tries: nat, chan: nat)

  datatype Aggregation = Spawned(root: RootId) | Collected(root: RootId, results: seq<Value>)

  /** `passed` are the workers that the stealing loop has found full. `ended` and `late` are history that the program
      does not keep: the roots with a slice that is done or failed for good, and those that got another slice after
      that. */
  datatype State = State(
    tasks: map<TaskId, Task>,
    dags: map<RootId, Dag>,
    submitters: multiset<TaskId>,
    queue: seq<TaskId>,
    queueCap: nat,
    dispatcher: Dispatcher,
    chans: seq<Chan>,
    workers: map<WorkerId, nat>,
    aggs: multiset<Aggregation>,
    steal: bool,
    passed: set<WorkerId>,
    ended: set<RootId>,
    late: set<RootId>)

  datatype Action =
    | CreateDag(root: RootId)
    | Link(root: RootId, id: TaskId)
    | Register(worker: WorkerId, cap: nat)
    | Deregister(worker: WorkerId)
    | Enqueue(task: TaskId)
    | Handoff(task: TaskId)
    | Dequeue
    | NoWorkers
    | Choose(worker: WorkerId)
    | Send
    | SendDirect
    | SendTimeout
    | Force(worker: WorkerId)
    | ForceDirect(worker: WorkerId)
    | Pass(worker: WorkerId)
    | GiveUp
    | Take(chan: nat)
    | Report(chan: nat, success: bool, result: Value)
    | Check(chan: nat)
    | Collect(root: RootId)
    | Finish(root: RootId, results: seq<Value>)

  function Initial(queueCap: nat, steal: bool): State {
    State(map[], map[], multiset{}, [], queueCap, DIdle, [], map[], multiset{}, steal, {}, {}, {})
  }

  // ---------- the actions ----------

  function NewTask(root: RootId): Task {
    Task(root, Pending, 0, MAX_RETRIES, Nil, 0)
  }

  function DagOf(s: State, root: RootId): Dag {
    if root in s.dags then s.dags[root] else Dag([], None)
  }

  /** One slice created, linked under its root, whose DAG is created on demand, and handed to a submitter goroutine. */
  function AddSlice(s: State, root: RootId, id: TaskId): State {
    var d := DagOf(s, root);
    s.(tasks := s.tasks[id := NewTask(root)],
       dags := s.dags[root := d.(children := d.children + [id])],
       submitters := s.submitters + multiset{id},
       late := s.late + if root in s.ended then {root} else {})
  }

  predicate HasRoom(c: Chan) { |c.items| < c.cap }

  /** The handler is blocked receiving, so a send meets it at once. */
  predicate Waits(c: Chan) { c.handler == Idle && c.items == [] }

  predicate ValidWorker(s: State, w: WorkerId) {
    w in s.workers && s.workers[w] < |s.chans|
  }

  function Push(c: Chan, id: TaskId): Chan { c.(items := c.items + [id]) }

  function Started(tasks: map<TaskId, Task>, id: TaskId): map<TaskId, Task> {
    if id in tasks then tasks[id := tasks[id].(status := Running, runs := tasks[id].runs + 1)] else tasks
  }

  /** A handler takes a microtask, which is running from then on. */
  function Deliver(s: State, c: nat, chan: Chan, id: TaskId): State
    requires c < |s.chans|
  {
    s.(chans := s.chans[c := chan.(handler := Busy(id))], tasks := Started(s.tasks, id))
  }

  predicate AllDone(tasks: map<TaskId, Task>, children: seq<TaskId>) {
    forall id :: id in children && id in tasks ==> tasks[id].status == Done
  }

  /** Results of the done children, in order. */
  function Results(tasks: map<TaskId, Task>, children: seq<TaskId>): seq<Value> {
    if children == [] then []
    else
      var last := children[|children| - 1];
      Results(tasks, children[..|children| - 1])
      + if last in tasks && tasks[last].status == Done then [tasks[last].result] else []
  }

  function ReportedTask(t: Task, success: bool, result: Value): Task {
    if success then t.(status := Done, result := result)
    else if t.attempts + 1 <= t.maxRetries then t.(status := Pending, attempts := t.attempts + 1)
    else t.(status := Failed, attempts := t.attempts + 1)
  }

  /** The status update of a reported task; a retried one goes back to a submitter. */
  function Reported(s: State, c: nat, id: TaskId, success: bool, result: Value): State
    requires c < |s.chans| && id in s.tasks
  {
    var t := ReportedTask(s.tasks[id], success, result);
    var retry := t.status == Pending;
    var h := if retry then Idle else Checking(t.parent, DagOf(s, t.parent).children);
    s.(tasks := s.tasks[id := t],
       chans := s.chans[c := s.chans[c].(handler := h)],
       submitters := s.submitters + (if retry then multiset{id} else multiset{}),
       ended := s.ended + if retry then {} else {t.parent})
  }

  function TryLink(s: State, root: RootId, id: TaskId): Option<State> {
    if id in s.tasks then None else Some(AddSlice(s, root, id))
  }

  function TryEnqueue(s: State, id: TaskId): Option<State> {
    if id !in s.submitters || |s.queue| >= s.queueCap then None
    else Some(s.(submitters := s.submitters - multiset{id}, queue := s.queue + [id]))
  }

  /** An unbuffered or empty queue hands a task straight to the waiting dispatcher. */
  function TryHandoff(s: State, id: TaskId): Option<State> {
    if id !in s.submitters || s.queue != [] || s.dispatcher != DIdle then None
    else Some(s.(submitters := s.submitters - multiset{id}, dispatcher := Holding(id, 0), passed := {}))
  }

  function TryDequeue(s: State): Option<State> {
    if s.queue == [] || s.dispatcher != DIdle then None
    else Some(s.(queue := s.queue[1..], dispatcher := Holding(s.queue[0], 0), passed := {}))
  }

  /** The dispatcher puts its task into channel c, buffered or straight to the waiting handler. */
  function TryPush(s: State, c: nat): Option<State>
    requires !s.dispatcher.DIdle?
  {
    if c >= |s.chans| || !HasRoom(s.chans[c]) then None
    else Some(s.(chans := s.chans[c := Push(s.chans[c], s.dispatcher.task)], dispatcher := DIdle))
  }

  function TryDirect(s: State, c: nat): Option<State>
    requires !s.dispatcher.DIdle?
  {
    if c >= |s.chans| || !Waits(s.chans[c]) then None
    else Some(Deliver(s.(dispatcher := DIdle), c, s.chans[c], s.dispatcher.task))
  }

  predicate Exhausted(s: State) {
    s.dispatcher.Holding? && s.dispatcher.tries >= DISPATCH_TRIES
  }

  predicate Trying(s: State) {
    s.dispatcher.Holding? && s.dispatcher.tries < DISPATCH_TRIES
  }

  /** The stealing loop holds the manager's lock for reading, so no worker joins or leaves while it is under way. */
  predicate StealingNow(s: State) {
    Exhausted(s) && s.passed != {}
  }

  /** The stealing loop may try the worker now. */
  predicate MayTry(s: State, w: WorkerId) {
    s.steal && Exhausted(s) && ValidWorker(s, w) && w !in s.passed
  }

  /** The stealing loop finds a worker's channel full and goes on to the next. */
  function TryPass(s: State, w: WorkerId): Option<State> {
    if MayTry(s, w) && !HasRoom(s.chans[s.workers[w]]) && !Waits(s.chans[s.workers[w]])
    then Some(s.(passed := s.passed + {w})) else None
  }

  function TryGiveUp(s: State): Option<State> {
    if Exhausted(s) && (s.steal ==> s.workers.Keys <= s.passed)
    then Some(s.(submitters := s.submitters + multiset{s.dispatcher.task}, dispatcher := DIdle)) else None
  }

  function TryTake(s: State, c: nat): Option<State> {
    if c < |s.chans| && s.chans[c].handler == Idle && s.chans[c].items != []
    then Some(Deliver(s, c, s.chans[c].(items := s.chans[c].items[1..]), s.chans[c].items[0])) else None
  }

  function TryReport(s: State, c: nat, success: bool, result: Value): Option<State> {
    if c < |s.chans| && s.chans[c].handler.Busy? && s.chans[c].handler.task in s.tasks
    then Some(Reported(s, c, s.chans[c].handler.task, success, result)) else None
  }

  function TryCheck(s: State, c: nat): Option<State> {
    if c < |s.chans| && s.chans[c].handler.Checking? then
      var h := s.chans[c].handler;
      Some(s.(chans := s.chans[c := s.chans[c].(handler := Idle)],
              aggs := s.aggs + if AllDone(s.tasks, h.children) then multiset{Spawned(h.root)} else multiset{}))
    else None
  }

  function TryCollect(s: State, root: RootId): Option<State> {
    if Spawned(root) in s.aggs && root in s.dags then
      Some(s.(aggs := s.aggs - multiset{Spawned(root)}
                      + multiset{Collected(root, Results(s.tasks, s.dags[root].children))}))
    else None
  }

  function TryFinish(s: State, root: RootId, results: seq<Value>, agg: seq<Value> -> Value): Option<State> {
    if Collected(root, results) in s.aggs && root in s.dags then
      Some(s.(aggs := s.aggs - multiset{Collected(root, results)},
              dags := s.dags[root := s.dags[root].(node := Some(agg(results)))]))
    else None
  }

  /** The actions that only move waiting tokens or change the set of workers. */
  function Move(s: State, a: Action): (r: Option<State>)
    ensures r.Some? ==> r.value.tasks == s.tasks && r.value.dags == s.dags && r.value.aggs == s.aggs
    ensures r.Some? ==> r.value.ended == s.ended && r.value.late == s.late
  {
    match a
    case Register(w, cap) =>
      if StealingNow(s) then None
      else Some(s.(chans := s.chans + [Chan(cap, [], Idle)], workers := s.workers[w := |s.chans|]))
    case Deregister(w) =>
      if StealingNow(s) || !ValidWorker(s, w) || (s.dispatcher.Sending? && s.dispatcher.chan == s.workers[w]) then None
      else Some(s.(workers := s.workers - {w}))
    case Enqueue(id) => TryEnqueue(s, id)
    case Handoff(id) => TryHandoff(s, id)
    case Dequeue => TryDequeue(s)
    case NoWorkers =>
      if !Trying(s) || s.workers != map[] then None
      else Some(s.(dispatcher := Holding(s.dispatcher.task, s.dispatcher.tries + 1)))
    case Choose(w) =>
      if !Trying(s) || !ValidWorker(s, w) then None
      else Some(s.(dispatcher := Sending(s.dispatcher.task, s.dispatcher.tries, s.workers[w])))
    case Send => if s.dispatcher.Sending? then TryPush(s, s.dispatcher.chan) else None
    case SendTimeout =>
      if s.dispatcher.Sending? then Some(s.(dispatcher := Holding(s.dispatcher.task, s.dispatcher.tries + 1))) else None
    case Force(w) => if MayTry(s, w) then TryPush(s, s.workers[w]) else None
    case Pass(w) => TryPass(s, w)
    case GiveUp => TryGiveUp(s)
    case _ => None
  }

  /** One atomic action, or None where it cannot happen. */
  function Step(s: State, a: Action, agg: seq<Value> -> Value): Option<State> {
    match a
    case CreateDag(root) => if root in s.dags then None else Some(s.(dags := s.dags[root := Dag([], None)]))
    case Link(root, id) => TryLink(s, root, id)
    case SendDirect => if s.dispatcher.Sending? then TryDirect(s, s.dispatcher.chan) else None
    case ForceDirect(w) => if MayTry(s, w) then TryDirect(s, s.workers[w]) else None
    case Take(c) => TryTake(s, c)
    case Report(c, success, result) => TryReport(s, c, success, result)
    case Check(c) => TryCheck(s, c)
    case Collect(root) => TryCollect(s, root)
    case Finish(root, results) => TryFinish(s, root, results, agg)
    case _ => Move(s, a)
  }

  /** The state after a run, if every action was possible when it happened. */
  function Run(s: State, actions: seq<Action>, agg: seq<Value> -> Value): Option<State> {
    if actions == [] then Some(s)
    else match Run(s, actions[..|actions| - 1], agg)
      case None => None
      case Some(r) => Step(r, actions[|actions| - 1], agg)
  }
}
