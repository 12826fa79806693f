/** What the dispatcher, the workers and the aggregators do with a microtask, and that none of them ever gets stuck. */
module MicrotaskDispatch {
  import opened Microtask
  import opened MicrotaskTokens
  import opened MicrotaskEffects
  import opened MicrotaskAggregation
  import opened MicrotaskRuns
  import opened Options

  // ---------- how often a microtask is run ----------

  lemma RetriesOfEffect(t: map<TaskId, Task>, u: map<TaskId, Task>, e: Effect)
    requires HasEffect(t, u, e) && forall id :: id in t ==> t[id].maxRetries == 3
    ensures forall id :: id in u ==> u[id].maxRetries == 3
  {
  }

  lemma RetriesOfStep(s: State, a: Action, agg: seq<Value> -> Value)
    requires TokenInv(s) && Step(s, a, agg).Some? && forall id :: id in s.tasks ==> s.tasks[id].maxRetries == 3
    ensures forall id :: id in Step(s, a, agg).value.tasks ==> Step(s, a, agg).value.tasks[id].maxRetries == 3
  {
    StepEffect(s, a, agg);
    RetriesOfEffect(s.tasks, Step(s, a, agg).value.tasks, EffectOf(s, a));
  }

  lemma {:induction false} ThreeRetries(queueCap: nat, steal: bool, actions: seq<Action>, agg: seq<Value> -> Value,
                                        s: State)
    requires Reaches(queueCap, steal, actions, agg, s)
    ensures forall id :: id in s.tasks ==> s.tasks[id].maxRetries == 3
  {
    if actions != [] {
      var n := |actions| - 1;
      var p := Run(Initial(queueCap, steal), actions[..n], agg).value;
      InvRun(queueCap, steal, actions[..n], agg, p);
      ThreeRetries(queueCap, steal, actions[..n], agg, p);
      RetriesOfStep(p, actions[n], agg);
    }
  }

  /** In every run, a microtask is run at most four times, and exactly four times if it failed for good. */
  lemma {:induction false} RunsAtMostFourTimes(queueCap: nat, steal: bool, actions: seq<Action>,
                                               agg: seq<Value> -> Value, s: State, id: TaskId)
    requires Reaches(queueCap, steal, actions, agg, s) && id in s.tasks
    ensures s.tasks[id].maxRetries == 3 && s.tasks[id].runs <= 4
    ensures s.tasks[id].status == Failed ==> s.tasks[id].runs == 4
  {
    InvRun(queueCap, steal, actions, agg, s);
    ThreeRetries(queueCap, steal, actions, agg, s);
    assert CountOk(s.tasks[id]);
  }

  // ---------- the dispatcher's attempts ----------

  /** A failed attempt: there was no worker, or the chosen one took nothing in time. */
  predicate FailsOnce(a: Action) { a.NoWorkers? || a.SendTimeout? }

  /** The failed attempts since the dispatcher last took a microtask. */
  function FailedSince(actions: seq<Action>): nat {
    if actions == [] then 0
    else
      var n := |actions| - 1;
      if actions[n].Handoff? || actions[n].Dequeue? then 0
      else FailedSince(actions[..n]) + if FailsOnce(actions[n]) then 1 else 0
  }

  predicate TriesOk(s: State, failed: nat) {
    !s.dispatcher.DIdle? ==>
      s.dispatcher.tries == failed && failed <= 3 && (s.dispatcher.Sending? ==> failed < 3)
  }

  lemma TriesStep(s: State, a: Action, agg: seq<Value> -> Value, failed: nat)
    requires Step(s, a, agg).Some? && TriesOk(s, failed)
    ensures TriesOk(Step(s, a, agg).value,
                    if a.Handoff? || a.Dequeue? then 0 else failed + if FailsOnce(a) then 1 else 0)
  {
    if IsMove(a) {
      StepIsMove(s, a, agg);
    }
  }

  /** In every run, the dispatcher counts its failed attempts for the microtask it has, and makes at most three. */
  lemma {:induction false} AttemptsAreCounted(queueCap: nat, steal: bool, actions: seq<Action>,
                                              agg: seq<Value> -> Value, s: State)
    requires Reaches(queueCap, steal, actions, agg, s)
    ensures TriesOk(s, FailedSince(actions))
  {
    if actions != [] {
      var n := |actions| - 1;
      var p := Run(Initial(queueCap, steal), actions[..n], agg).value;
      AttemptsAreCounted(queueCap, steal, actions[..n], agg, p);
      TriesStep(p, actions[n], agg, FailedSince(actions[..n]));
    }
  }

  /** A registered worker that could take a microtask at once. */
  predicate CouldTake(s: State, w: WorkerId) {
    && w in s.workers && s.workers[w] < |s.chans|
    && var c := s.chans[s.workers[w]];
       |c.items| < c.cap || (c.handler == Idle && c.items == [])
  }

  /** A registered worker has a channel. */
  ghost predicate WorkersOk(s: State) {
    forall w :: w in s.workers ==> s.workers[w] < |s.chans|
  }

  /** Since the dispatcher last took a microtask, the stealing loop found the worker full. */
  ghost predicate FoundFull(queueCap: nat, steal: bool, actions: seq<Action>, agg: seq<Value> -> Value, w: WorkerId)
    decreases |actions|
  {
    actions != [] &&
    var n := |actions| - 1;
    && !actions[n].Handoff? && !actions[n].Dequeue?
    && (FoundFull(queueCap, steal, actions[..n], agg, w)
        || (actions[n] == Pass(w)
            && var p := Run(Initial(queueCap, steal), actions[..n], agg); p.Some? && !CouldTake(p.value, w)))
  }

  lemma PassedStep(s: State, a: Action, agg: seq<Value> -> Value, w: WorkerId)
    requires Step(s, a, agg).Some? && w in Step(s, a, agg).value.passed
    ensures !a.Handoff? && !a.Dequeue? && (w in s.passed || (a == Pass(w) && !CouldTake(s, w)))
  {
    if IsMove(a) {
      StepIsMove(s, a, agg);
    }
  }

  lemma {:induction false} PassedAreFull(queueCap: nat, steal: bool, actions: seq<Action>, agg: seq<Value> -> Value,
                                         s: State, w: WorkerId)
    requires Reaches(queueCap, steal, actions, agg, s) && w in s.passed
    ensures FoundFull(queueCap, steal, actions, agg, w)
  {
    if actions != [] {
      var n := |actions| - 1;
      var p := Run(Initial(queueCap, steal), actions[..n], agg).value;
      PassedStep(p, actions[n], agg, w);
      if w in p.passed {
        PassedAreFull(queueCap, steal, actions[..n], agg, p, w);
      }
    }
  }

  /** The stealing loop passes each worker at most once, so it comes to its end. */
  lemma PassGoesOn(s: State, agg: seq<Value> -> Value, w: WorkerId)
    requires Step(s, Pass(w), agg).Some?
    ensures var r := Step(s, Pass(w), agg).value;
            w in s.workers && w !in s.passed && r == s.(passed := s.passed + {w})
  {
  }

  /** In every run, the dispatcher gives a microtask back, or forces it on a worker where stealing is on, only after
      exactly three failed attempts; with stealing it gives back only what every worker was found too full for. */
  lemma {:induction false} OnlyAfterThree(queueCap: nat, steal: bool, actions: seq<Action>, agg: seq<Value> -> Value,
                                          s: State, a: Action)
    requires Reaches(queueCap, steal, actions, agg, s) && Step(s, a, agg).Some?
    requires a.GiveUp? || a.Force? || a.ForceDirect?
    ensures FailedSince(actions) == 3 && s.dispatcher.Holding?
    ensures a.Force? || a.ForceDirect? ==> s.steal && CouldTake(s, a.worker)
    ensures a.GiveUp? ==>
              && (s.steal ==> forall w :: w in s.workers ==> FoundFull(queueCap, steal, actions, agg, w))
              && Step(s, a, agg).value == s.(dispatcher := DIdle,
                                             submitters := s.submitters + multiset{s.dispatcher.task})
  {
    AttemptsAreCounted(queueCap, steal, actions, agg, s);
    if a.GiveUp? && s.steal {
      forall w | w in s.workers
        ensures FoundFull(queueCap, steal, actions, agg, w)
      {
        PassedAreFull(queueCap, steal, actions, agg, s, w);
      }
    }
  }

  /** The dispatcher sends to a worker it chose or counts an attempt where there is none; a worker can leave, with what
      is in its channel still to be handled, unless the dispatcher is sending to it or stealing. */
  lemma DispatchExactly(s: State, agg: seq<Value> -> Value, w: WorkerId)
    requires WorkersOk(s)
    ensures Step(s, Choose(w), agg)
         == if s.dispatcher.Holding? && s.dispatcher.tries < 3 && w in s.workers
            then Some(s.(dispatcher := Sending(s.dispatcher.task, s.dispatcher.tries, s.workers[w]))) else None
    ensures Step(s, NoWorkers, agg).Some? <==> s.dispatcher.Holding? && s.dispatcher.tries < 3 && s.workers == map[]
    ensures Step(s, Deregister(w), agg)
         == if w in s.workers && !(s.dispatcher.Sending? && s.dispatcher.chan == s.workers[w])
               && !(s.dispatcher.Holding? && s.dispatcher.tries >= 3 && s.passed != {})
            then Some(s.(workers := s.workers - {w})) else None
  {
  }

  // ---------- nothing is stuck ----------

  /** Something other than slicing, creating DAGs and changes of the workers can happen. */
  ghost predicate CanGoOn(s: State, agg: seq<Value> -> Value) {
    exists a: Action :: Works(a) && Step(s, a, agg).Some?
  }

  predicate Works(a: Action) {
    !a.CreateDag? && !a.Link? && !a.Register? && !a.Deregister?
  }

  /** The dispatcher can always do something with the microtask it has. */
  lemma DispatcherGoesOn(s: State, agg: seq<Value> -> Value)
    requires !s.dispatcher.DIdle? && WorkersOk(s)
    ensures CanGoOn(s, agg)
  {
    if s.dispatcher.Sending? {
      assert Works(SendTimeout) && Step(s, SendTimeout, agg).Some?;
    } else if s.dispatcher.tries < 3 {
      if s.workers == map[] {
        assert Works(NoWorkers) && Step(s, NoWorkers, agg).Some?;
      } else {
        var w :| w in s.workers;
        assert Works(Choose(w)) && Step(s, Choose(w), agg).Some?;
      }
    } else if s.steal && exists w :: w in s.workers && w !in s.passed {
      var w :| w in s.workers && w !in s.passed;
      StealingGoesOn(s, agg, w);
    } else {
      assert Works(GiveUp) && Step(s, GiveUp, agg).Some?;
    }
  }

  lemma StealingGoesOn(s: State, agg: seq<Value> -> Value, w: WorkerId)
    requires s.dispatcher.Holding? && s.dispatcher.tries >= 3 && s.steal && WorkersOk(s)
    requires w in s.workers && w !in s.passed
    ensures CanGoOn(s, agg)
  {
    if HasRoom(s.chans[s.workers[w]]) {
      assert Works(Force(w)) && Step(s, Force(w), agg).Some?;
    } else if Waits(s.chans[s.workers[w]]) {
      assert Works(ForceDirect(w)) && Step(s, ForceDirect(w), agg).Some?;
    } else {
      assert Works(Pass(w)) && Step(s, Pass(w), agg).Some?;
    }
  }

  lemma WorkersStep(s: State, a: Action, agg: seq<Value> -> Value)
    requires WorkersOk(s) && Step(s, a, agg).Some?
    ensures WorkersOk(Step(s, a, agg).value)
  {
    if IsMove(a) {
      StepIsMove(s, a, agg);
      WorkersMove(s, a);
    }
  }

  lemma WorkersMove(s: State, a: Action)
    requires WorkersOk(s) && Move(s, a).Some?
    ensures WorkersOk(Move(s, a).value)
  {
  }

  lemma {:induction false} WorkersRun(queueCap: nat, steal: bool, actions: seq<Action>, agg: seq<Value> -> Value,
                                      s: State)
    requires Reaches(queueCap, steal, actions, agg, s)
    ensures WorkersOk(s)
  {
    if actions != [] {
      var n := |actions| - 1;
      var p := Run(Initial(queueCap, steal), actions[..n], agg).value;
      WorkersRun(queueCap, steal, actions[..n], agg, p);
      WorkersStep(p, actions[n], agg);
    }
  }

  /** A waiting submitter goes on as soon as the queue has room; with a full queue the dispatcher takes from it. */
  lemma SubmitterGoesOn(s: State, agg: seq<Value> -> Value, id: TaskId)
    requires id in s.submitters && s.dispatcher.DIdle?
    ensures CanGoOn(s, agg)
  {
    if s.queue == [] {
      assert Works(Handoff(id)) && Step(s, Handoff(id), agg).Some?;
    } else {
      QueueGoesOn(s, agg);
    }
  }

  lemma QueueGoesOn(s: State, agg: seq<Value> -> Value)
    requires s.queue != [] && s.dispatcher.DIdle?
    ensures CanGoOn(s, agg)
  {
    assert Works(Dequeue) && Step(s, Dequeue, agg).Some?;
  }

  /** A worker's goroutine with anything to do can do it. */
  lemma WorkerGoesOn(s: State, agg: seq<Value> -> Value, c: nat)
    requires c < |s.chans| && (s.chans[c].items != [] || s.chans[c].handler != Idle)
    requires s.chans[c].handler.Busy? ==> s.chans[c].handler.task in s.tasks
    ensures CanGoOn(s, agg)
  {
    if s.chans[c].handler == Idle {
      assert Works(Take(c)) && Step(s, Take(c), agg).Some?;
    } else if s.chans[c].handler.Busy? {
      assert Works(Report(c, true, Nil)) && Step(s, Report(c, true, Nil), agg).Some?;
    } else {
      assert Works(Check(c)) && Step(s, Check(c), agg).Some?;
    }
  }

  lemma {:induction false} SomeChannel(chans: seq<Chan>, id: TaskId) returns (c: nat)
    requires InChannels(chans, id) + InHandlers(chans, id) > 0
    ensures c < |chans| && (chans[c].items != [] || chans[c].handler != Idle)
  {
    if chans[0].items != [] || chans[0].handler != Idle {
      c := 0;
    } else {
      var d := SomeChannel(chans[1..], id);
      c := d + 1;
    }
  }

  lemma AggregatorGoesOn(s: State, agg: seq<Value> -> Value, g: Aggregation)
    requires g in s.aggs && g.root in s.dags
    ensures CanGoOn(s, agg)
  {
    if g.Spawned? {
      assert Works(Collect(g.root)) && Step(s, Collect(g.root), agg).Some?;
    } else {
      assert Works(Finish(g.root, g.results)) && Step(s, Finish(g.root, g.results), agg).Some?;
    }
  }

  /** In every run, while a microtask is unfinished, a handler has yet to check, or an aggregation is under way,
      something can happen: the manager never gets stuck, with or without workers. */
  lemma {:induction false} NeverStuck(queueCap: nat, steal: bool, actions: seq<Action>, agg: seq<Value> -> Value,
                                      s: State, id: TaskId)
    requires Reaches(queueCap, steal, actions, agg, s)
    requires || (id in s.tasks && !Final(s.tasks[id]))
             || s.aggs != multiset{} || exists c :: 0 <= c < |s.chans| && s.chans[c].handler.Checking?
    ensures CanGoOn(s, agg)
  {
    InvRun(queueCap, steal, actions, agg, s);
    WorkersRun(queueCap, steal, actions, agg, s);
    if !s.dispatcher.DIdle? {
      DispatcherGoesOn(s, agg);
    } else if s.aggs != multiset{} {
      var g :| g in s.aggs;
      assert AggOk(s, agg, g);
      AggregatorGoesOn(s, agg, g);
    } else if c :| 0 <= c < |s.chans| && s.chans[c].handler.Checking? {
      WorkerGoesOn(s, agg, c);
    } else {
      TaskGoesOn(queueCap, steal, actions, agg, s, id);
    }
  }

  lemma {:induction false} TaskGoesOn(queueCap: nat, steal: bool, actions: seq<Action>, agg: seq<Value> -> Value,
                                      s: State, id: TaskId)
    requires Reaches(queueCap, steal, actions, agg, s) && s.dispatcher.DIdle? && id in s.tasks && !Final(s.tasks[id])
    ensures CanGoOn(s, agg)
  {
    HeldExactlyOnce(queueCap, steal, actions, agg, s, id);
    if id in s.submitters {
      SubmitterGoesOn(s, agg, id);
    } else if s.queue != [] {
      QueueGoesOn(s, agg);
    } else {
      var c := SomeChannel(s.chans, id);
      if s.chans[c].handler.Busy? {
        HandlerTask(queueCap, steal, actions, agg, s, c);
      }
      WorkerGoesOn(s, agg, c);
    }
  }

  lemma {:induction false} HandlerTask(queueCap: nat, steal: bool, actions: seq<Action>, agg: seq<Value> -> Value,
                                       s: State, c: nat)
    requires Reaches(queueCap, steal, actions, agg, s) && c < |s.chans| && s.chans[c].handler.Busy?
    ensures s.chans[c].handler.task in s.tasks
  {
    var id := s.chans[c].handler.task;
    HeldExactlyOnce(queueCap, steal, actions, agg, s, id);
    OneHandler(s.chans, c, id);
  }

  // ---------- checks and aggregations ----------

  function IsChecking(h: Handler): nat { if h.Checking? then 1 else 0 }

  /** How many handlers are about to check for an aggregation. */
  function ChecksDue(chans: seq<Chan>): nat {
    if chans == [] then 0 else IsChecking(chans[0].handler) + ChecksDue(chans[1..])
  }

  lemma {:induction false} DueUpdate(chans: seq<Chan>, c: nat, ch: Chan)
    requires c < |chans|
    ensures ChecksDue(chans[c := ch]) == ChecksDue(chans) - IsChecking(chans[c].handler) + IsChecking(ch.handler)
  {
    var r := chans[c := ch];
    if c == 0 {
      assert r[1..] == chans[1..];
    } else {
      DueUpdate(chans[1..], c - 1, ch);
      assert r[1..] == chans[1..][c - 1 := ch];
    }
  }

  lemma {:induction false} DueAppend(chans: seq<Chan>, ch: Chan)
    ensures ChecksDue(chans + [ch]) == ChecksDue(chans) + IsChecking(ch.handler)
  {
    var r := chans + [ch];
    if chans == [] {
      assert r[1..] == [];
    } else {
      DueAppend(chans[1..], ch);
      assert r[1..] == chans[1..] + [ch];
    }
  }

  function ChecksMade(actions: seq<Action>): nat {
    if actions == [] then 0
    else ChecksMade(actions[..|actions| - 1]) + if actions[|actions| - 1].Check? then 1 else 0
  }

  /** The microtasks that are done or failed for good. */
  ghost function Finals(tasks: map<TaskId, Task>): set<TaskId> {
    set id | id in tasks && Final(tasks[id])
  }

  /** A report that ends its microtask. */
  predicate EndsTask(s: State, a: Action) {
    && a.Report? && a.chan < |s.chans| && s.chans[a.chan].handler.Busy? && s.chans[a.chan].handler.task in s.tasks
    && Final(ReportedTask(s.tasks[s.chans[a.chan].handler.task], a.success, a.result))
  }

  lemma FinalsOfEffect(t: map<TaskId, Task>, u: map<TaskId, Task>, e: Effect)
    requires HasEffect(t, u, e)
    ensures |Finals(u)|
         == |Finals(t)| + if e.Finished? && Final(ReportedTask(t[e.id], e.success, e.result)) then 1 else 0
  {
    if e.Finished? {
      assert e.id !in Finals(t);
      assert Finals(u) == if Final(u[e.id]) then Finals(t) + {e.id} else Finals(t);
    } else {
      assert Finals(u) == Finals(t);
    }
  }

  lemma FinalsStep(s: State, a: Action, agg: seq<Value> -> Value)
    requires TokenInv(s) && Step(s, a, agg).Some?
    ensures |Finals(Step(s, a, agg).value.tasks)| == |Finals(s.tasks)| + if EndsTask(s, a) then 1 else 0
  {
    StepEffect(s, a, agg);
    FinalsOfEffect(s.tasks, Step(s, a, agg).value.tasks, EffectOf(s, a));
  }

  lemma DueOfPush(s: State, a: Action, agg: seq<Value> -> Value)
    requires Step(s, a, agg).Some? && (a.Send? || a.Force?)
    ensures ChecksDue(Step(s, a, agg).value.chans) == ChecksDue(s.chans)
  {
    var c := if a.Send? then s.dispatcher.chan else s.workers[a.worker];
    DueUpdate(s.chans, c, Push(s.chans[c], s.dispatcher.task));
  }

  lemma DueOfDelivery(s: State, a: Action, agg: seq<Value> -> Value)
    requires Step(s, a, agg).Some? && StartsTask(a)
    ensures ChecksDue(Step(s, a, agg).value.chans) == ChecksDue(s.chans)
  {
    var c := Receiver(s, a);
    DueUpdate(s.chans, c, Step(s, a, agg).value.chans[c]);
  }

  lemma DueOfReport(s: State, a: Action, agg: seq<Value> -> Value)
    requires Step(s, a, agg).Some? && (a.Report? || a.Check?)
    ensures ChecksDue(Step(s, a, agg).value.chans) + (if a.Check? then 1 else 0)
         == ChecksDue(s.chans) + if EndsTask(s, a) then 1 else 0
  {
    DueUpdate(s.chans, a.chan, Step(s, a, agg).value.chans[a.chan]);
  }

  lemma DueStays(s: State, a: Action, agg: seq<Value> -> Value)
    requires Step(s, a, agg).Some?
    requires !a.Send? && !a.Force? && !StartsTask(a) && !a.Report? && !a.Check?
    ensures ChecksDue(Step(s, a, agg).value.chans) == ChecksDue(s.chans)
  {
    if a.Register? {
      DueAppend(s.chans, Chan(a.cap, [], Idle));
    }
  }

  lemma DueStep(s: State, a: Action, agg: seq<Value> -> Value)
    requires Step(s, a, agg).Some?
    ensures ChecksDue(Step(s, a, agg).value.chans) + (if a.Check? then 1 else 0)
         == ChecksDue(s.chans) + if EndsTask(s, a) then 1 else 0
  {
    if a.Send? || a.Force? {
      DueOfPush(s, a, agg);
    } else if StartsTask(a) {
      DueOfDelivery(s, a, agg);
    } else if a.Report? || a.Check? {
      DueOfReport(s, a, agg);
    } else {
      DueStays(s, a, agg);
    }
  }

  /** In every run, each microtask that is done or failed for good is followed by one check: those made and those due
      are as many. */
  lemma {:induction false} OneCheckEach(queueCap: nat, steal: bool, actions: seq<Action>, agg: seq<Value> -> Value,
                                        s: State)
    requires Reaches(queueCap, steal, actions, agg, s)
    ensures ChecksMade(actions) + ChecksDue(s.chans) == |Finals(s.tasks)|
  {
    if actions != [] {
      var n := |actions| - 1;
      var p := Run(Initial(queueCap, steal), actions[..n], agg).value;
      InvRun(queueCap, steal, actions[..n], agg, p);
      OneCheckEach(queueCap, steal, actions[..n], agg, p);
      FinalsStep(p, actions[n], agg);
      DueStep(p, actions[n], agg);
    }
  }

  /** A check that finds all the slices it knows done. */
  ghost predicate StartsAggregation(s: State, a: Action) {
    a.Check? && a.chan < |s.chans| && s.chans[a.chan].handler.Checking?
    && forall id :: id in s.chans[a.chan].handler.children && id in s.tasks ==> s.tasks[id].status == Done
  }

  ghost function Started(s: State, actions: seq<Action>, agg: seq<Value> -> Value): nat {
    if actions == [] then 0
    else
      var n := |actions| - 1;
      Started(s, actions[..n], agg)
      + match Run(s, actions[..n], agg)
        case None => 0
        case Some(p) => if StartsAggregation(p, actions[n]) then 1 else 0
  }

  function Ended(actions: seq<Action>): nat {
    if actions == [] then 0
    else Ended(actions[..|actions| - 1]) + if actions[|actions| - 1].Finish? then 1 else 0
  }

  lemma AggregationsStep(s: State, a: Action, agg: seq<Value> -> Value)
    requires Step(s, a, agg).Some?
    ensures |Step(s, a, agg).value.aggs| + (if a.Finish? then 1 else 0)
         == |s.aggs| + if StartsAggregation(s, a) then 1 else 0
  {
    if !a.Check? && !a.Collect? && !a.Finish? {
      AggsFrame(s, a, agg);
    }
  }

  /** In every run, each check that finds all slices done starts one aggregation, which writes one result: those
      started are those ended and those under way. */
  lemma {:induction false} OneResultEach(queueCap: nat, steal: bool, actions: seq<Action>, agg: seq<Value> -> Value,
                                         s: State)
    requires Reaches(queueCap, steal, actions, agg, s)
    ensures Started(Initial(queueCap, steal), actions, agg) == Ended(actions) + |s.aggs|
  {
    if actions != [] {
      var n := |actions| - 1;
      var p := Run(Initial(queueCap, steal), actions[..n], agg).value;
      OneResultEach(queueCap, steal, actions[..n], agg, p);
      AggregationsStep(p, actions[n], agg);
    }
  }
}
