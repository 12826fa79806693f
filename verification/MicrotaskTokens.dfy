/** Microtasks as tokens: who holds each of them, and that every action moves tokens without losing or copying any. */
module MicrotaskTokens {
  import opened Microtask
  import opened Options

  /** How often a holder holds task `id`. */
  function InSeq(items: seq<TaskId>, id: TaskId): nat {
    if items == [] then 0 else (if items[0] == id then 1 else 0) + InSeq(items[1..], id)
  }

  function InDispatcher(d: Dispatcher, id: TaskId): nat {
    if !d.DIdle? && d.task == id then 1 else 0
  }

  function InHandler(h: Handler, id: TaskId): nat {
    if h == Busy(id) then 1 else 0
  }

  function InChannels(chans: seq<Chan>, id: TaskId): nat {
    if chans == [] then 0 else InSeq(chans[0].items, id) + InChannels(chans[1..], id)
  }

  function InHandlers(chans: seq<Chan>, id: TaskId): nat {
    if chans == [] then 0 else InHandler(chans[0].handler, id) + InHandlers(chans[1..], id)
  }

  /** How often `id` is held by submitters, queue, dispatcher and worker channels together. */
  function Waiting(s: State, id: TaskId): nat {
    s.submitters[id] + InSeq(s.queue, id) + InDispatcher(s.dispatcher, id) + InChannels(s.chans, id)
  }

  lemma {:induction false} InSeqAppend(a: seq<TaskId>, b: seq<TaskId>, id: TaskId)
    ensures InSeq(a + b, id) == InSeq(a, id) + InSeq(b, id)
  {
    if a == [] {
      assert a + b == b;
    } else {
      InSeqAppend(a[1..], b, id);
      assert (a + b)[1..] == a[1..] + b;
    }
  }

  lemma {:induction false} InSeqOne(id: TaskId, x: TaskId)
    ensures InSeq([x], id) == if x == id then 1 else 0
  {
    assert [x][1..] == [];
  }

  lemma {:induction false} ChannelsUpdate(chans: seq<Chan>, c: nat, ch: Chan, id: TaskId)
    requires c < |chans|
    ensures InChannels(chans[c := ch], id) == InChannels(chans, id) - InSeq(chans[c].items, id) + InSeq(ch.items, id)
    ensures InHandlers(chans[c := ch], id)
         == InHandlers(chans, id) - InHandler(chans[c].handler, id) + InHandler(ch.handler, id)
  {
    var r := chans[c := ch];
    if c == 0 {
      assert r[1..] == chans[1..];
    } else {
      ChannelsUpdate(chans[1..], c - 1, ch, id);
      assert r[1..] == chans[1..][c - 1 := ch];
    }
  }

  lemma {:induction false} ChannelsAppend(chans: seq<Chan>, ch: Chan, id: TaskId)
    ensures InChannels(chans + [ch], id) == InChannels(chans, id) + InSeq(ch.items, id)
    ensures InHandlers(chans + [ch], id) == InHandlers(chans, id) + InHandler(ch.handler, id)
  {
    var r := chans + [ch];
    if chans == [] {
      assert r[1..] == [];
    } else {
      ChannelsAppend(chans[1..], ch, id);
      assert r[1..] == chans[1..] + [ch];
    }
  }

  function Expected(tasks: map<TaskId, Task>, id: TaskId, status: Status): nat {
    if id in tasks && tasks[id].status == status then 1 else 0
  }

  /** A pending task is held once, by one waiting place; a running one once, by one handler; others nowhere. */
  ghost predicate TokenOk(s: State, id: TaskId) {
    Waiting(s, id) == Expected(s.tasks, id, Pending) && InHandlers(s.chans, id) == Expected(s.tasks, id, Running)
  }

  ghost predicate TokenInv(s: State) {
    forall id :: TokenOk(s, id)
  }

  lemma TokenOfTries(s: State, a: Action, agg: seq<Value> -> Value, id: TaskId)
    requires Step(s, a, agg).Some?
    requires a.NoWorkers? || a.Choose? || a.SendTimeout? || a.Pass?
    ensures TokenOk(s, id) ==> TokenOk(Step(s, a, agg).value, id)
  {
  }

  lemma TokenOfMoves(s: State, a: Action, agg: seq<Value> -> Value, id: TaskId)
    requires Step(s, a, agg).Some?
    requires a.Handoff? || a.Dequeue? || a.GiveUp?
    ensures TokenOk(s, id) ==> TokenOk(Step(s, a, agg).value, id)
  {
  }

  lemma TokenOfEnqueue(s: State, x: TaskId, id: TaskId)
    requires TryEnqueue(s, x).Some?
    ensures TokenOk(s, id) ==> TokenOk(TryEnqueue(s, x).value, id)
  {
    InSeqAppend(s.queue, [x], id);
    InSeqOne(id, x);
  }

  lemma TokenOfPush(s: State, a: Action, agg: seq<Value> -> Value, id: TaskId)
    requires Step(s, a, agg).Some? && (a.Send? || a.Force?)
    ensures TokenOk(s, id) ==> TokenOk(Step(s, a, agg).value, id)
  {
    var c := if a.Send? then s.dispatcher.chan else s.workers[a.worker];
    ChannelsUpdate(s.chans, c, Push(s.chans[c], s.dispatcher.task), id);
    InSeqAppend(s.chans[c].items, [s.dispatcher.task], id);
    InSeqOne(id, s.dispatcher.task);
  }

  lemma TokenOfRegister(s: State, a: Action, agg: seq<Value> -> Value, id: TaskId)
    requires Step(s, a, agg).Some?
    requires a.Register? || a.Deregister? || a.CreateDag? || a.Collect? || a.Finish?
    ensures TokenOk(s, id) ==> TokenOk(Step(s, a, agg).value, id)
  {
    if a.Register? {
      ChannelsAppend(s.chans, Chan(a.cap, [], Idle), id);
    }
  }

  predicate Delivering(s: State, a: Action) {
    || (a.SendDirect? && s.dispatcher.Sending?)
    || (a.ForceDirect? && s.dispatcher.Holding? && a.worker in s.workers)
    || (a.Take? && a.chan < |s.chans| && s.chans[a.chan].items != [])
  }

  /** The microtask a delivery hands over. */
  function Delivered(s: State, a: Action): TaskId
    requires Delivering(s, a)
  {
    if a.Take? then s.chans[a.chan].items[0] else s.dispatcher.task
  }

  /** The channel a delivery goes through. */
  function Receiver(s: State, a: Action): nat
    requires Delivering(s, a)
  {
    if a.Take? then a.chan else if a.SendDirect? then s.dispatcher.chan else s.workers[a.worker]
  }

  /** A waiting token moves to a handler; its task was pending and is running now. */
  lemma TokenOfDelivery(s: State, a: Action, agg: seq<Value> -> Value, id: TaskId)
    requires Step(s, a, agg).Some? && (a.SendDirect? || a.ForceDirect? || a.Take?)
    requires TokenOk(s, Delivered(s, a))
    ensures TokenOk(s, id) ==> TokenOk(Step(s, a, agg).value, id)
  {
    var x, c := Delivered(s, a), Receiver(s, a);
    if a.Take? {
      TakeTokens(s, c, x, id);
      TakeTokens(s, c, x, x);
      DeliveredOk(s, TryTake(s, c).value, x, id);
    } else {
      DirectTokens(s, c, x, id);
      DirectTokens(s, c, x, x);
      DeliveredOk(s, TryDirect(s, c).value, x, id);
    }
  }

  /** Where x moved from a waiting place to a handler, and was pending, the tokens are right again. */
  lemma {:induction false} DeliveredOk(s: State, r: State, x: TaskId, id: TaskId)
    requires TokenOk(s, x) && r.tasks == Started(s.tasks, x)
    requires Waiting(r, id) == Waiting(s, id) - (if x == id then 1 else 0)
    requires Waiting(r, x) == Waiting(s, x) - 1
    requires InHandlers(r.chans, id) == InHandlers(s.chans, id) + if x == id then 1 else 0
    ensures TokenOk(s, id) ==> TokenOk(r, id)
  {
  }

  lemma {:induction false} TakeTokens(s: State, c: nat, x: TaskId, id: TaskId)
    requires TryTake(s, c).Some? && x == s.chans[c].items[0]
    ensures Waiting(TryTake(s, c).value, id) == Waiting(s, id) - if x == id then 1 else 0
    ensures InHandlers(TryTake(s, c).value.chans, id) == InHandlers(s.chans, id) + if x == id then 1 else 0
  {
    ChannelsUpdate(s.chans, c, TryTake(s, c).value.chans[c], id);
  }

  lemma {:induction false} DirectTokens(s: State, c: nat, x: TaskId, id: TaskId)
    requires !s.dispatcher.DIdle? && TryDirect(s, c).Some? && x == s.dispatcher.task
    ensures Waiting(TryDirect(s, c).value, id) == Waiting(s, id) - if x == id then 1 else 0
    ensures InHandlers(TryDirect(s, c).value.chans, id) == InHandlers(s.chans, id) + if x == id then 1 else 0
  {
    ChannelsUpdate(s.chans, c, TryDirect(s, c).value.chans[c], id);
  }

  lemma TokenOfReport(s: State, a: Action, agg: seq<Value> -> Value, id: TaskId)
    requires Step(s, a, agg).Some? && a.Report?
    requires TokenOk(s, s.chans[a.chan].handler.task)
    ensures TokenOk(s, id) ==> TokenOk(Step(s, a, agg).value, id)
  {
    var r, x := Step(s, a, agg).value, s.chans[a.chan].handler.task;
    ChannelsUpdate(s.chans, a.chan, r.chans[a.chan], id);
    OneHandler(s.chans, a.chan, x);
  }

  lemma TokenOfCheck(s: State, a: Action, agg: seq<Value> -> Value, id: TaskId)
    requires Step(s, a, agg).Some? && a.Check?
    ensures TokenOk(s, id) ==> TokenOk(Step(s, a, agg).value, id)
  {
    ChannelsUpdate(s.chans, a.chan, Step(s, a, agg).value.chans[a.chan], id);
  }

  lemma TokenOfLink(s: State, a: Action, agg: seq<Value> -> Value, id: TaskId)
    requires Step(s, a, agg).Some? && a.Link?
    ensures TokenOk(s, id) ==> TokenOk(Step(s, a, agg).value, id)
  {
  }

  lemma TokensStep(s: State, a: Action, agg: seq<Value> -> Value)
    requires TokenInv(s) && Step(s, a, agg).Some?
    ensures TokenInv(Step(s, a, agg).value)
  {
    var r := Step(s, a, agg).value;
    forall id
      ensures TokenOk(r, id)
    {
      assert TokenOk(s, id);
      match a {
        case Link(_, _) => TokenOfLink(s, a, agg, id);
        case Send | Force(_) => TokenOfPush(s, a, agg, id);
        case SendDirect | ForceDirect(_) | Take(_) =>
          assert TokenOk(s, Delivered(s, a));
          TokenOfDelivery(s, a, agg, id);
        case Report(_, _, _) =>
          assert TokenOk(s, s.chans[a.chan].handler.task);
          TokenOfReport(s, a, agg, id);
        case Check(_) => TokenOfCheck(s, a, agg, id);
        case Register(_, _) | Deregister(_) | CreateDag(_) | Collect(_) | Finish(_, _) =>
          TokenOfRegister(s, a, agg, id);
        case Enqueue(x) => TokenOfEnqueue(s, x, id);
        case NoWorkers | Choose(_) | SendTimeout | Pass(_) => TokenOfTries(s, a, agg, id);
        case _ => TokenOfMoves(s, a, agg, id);
      }
    }
  }

  lemma {:induction false} SumOfHandlers(chans: seq<Chan>, c: nat, d: nat, id: TaskId)
    requires c < d < |chans|
    ensures InHandlers(chans, id) >= InHandler(chans[c].handler, id) + InHandler(chans[d].handler, id)
  {
    if c == 0 {
      OneHandler(chans[1..], d - 1, id);
    } else {
      SumOfHandlers(chans[1..], c - 1, d - 1, id);
    }
  }

  lemma {:induction false} OneHandler(chans: seq<Chan>, c: nat, id: TaskId)
    requires c < |chans|
    ensures InHandlers(chans, id) >= InHandler(chans[c].handler, id)
  {
    if c > 0 {
      OneHandler(chans[1..], c - 1, id);
    }
  }
}
