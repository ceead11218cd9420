/** The queue object and the worker loop both controllers run on it. */
module WorkerLoop {
  import opened WorkQueue
  import opened RetryBound

  /** The calls of the worker loop. */
  datatype Call = GetCall | ForgetCall | DoneCall | CountCall | RequeueCall

  /** `calls` records, for the proof, in which order the loop used the queue. */
  class RateLimitingQueue {
    var waiting: seq<Item>
    var dirty: set<Item>
    var processing: set<Item>
    var delayed: multiset<Item>
    var failures: map<Item, nat>
    var shutDown: bool
    ghost var calls: seq<Call>

    function View(): Queue
      reads this
    {
      Queue(waiting, dirty, processing, delayed, failures, shutDown)
    }

    constructor ()
      ensures View() == EMPTY && calls == []
    {
      calls := [];
      waiting, dirty, processing := [], {}, {};
      delayed, failures, shutDown := multiset{}, map[], false;
    }

    method Add(item: Item)
      modifies this
      ensures View() == WorkQueue.Add(old(View()), item) && calls == old(calls)
    {
      if shutDown || item in dirty { return; }
      dirty := dirty + {item};
      if item in processing { return; }
      waiting := waiting + [item];
    }

    /** A blocked Get is a Get that is not called yet. */
    method Get() returns (item: Item, shutdown: bool)
      requires waiting != [] || shutDown
      modifies this
      ensures shutdown <==> old(waiting) == []
      ensures calls == old(calls) + [GetCall]
      ensures if shutdown then View() == old(View()) else item == old(waiting)[0] && View() == WorkQueue.Get(old(View()))
    {
      item := Junk(0);
      calls := calls + [GetCall];
      if waiting == [] { return item, true; }
      item, waiting := waiting[0], waiting[1..];
      processing := processing + {item};
      dirty := dirty - {item};
      shutdown := false;
    }

    method Done(item: Item)
      modifies this
      ensures View() == WorkQueue.Done(old(View()), item) && calls == old(calls) + [DoneCall]
    {
      calls := calls + [DoneCall];
      processing := processing - {item};
      if item in dirty {
        waiting := waiting + [item];
      }
    }

    method Forget(item: Item)
      modifies this
      ensures View() == WorkQueue.Forget(old(View()), item) && calls == old(calls) + [ForgetCall]
    {
      calls := calls + [ForgetCall];
      failures := failures - {item};
    }

    method NumRequeues(item: Item) returns (n: nat)
      modifies this`calls
      ensures n == WorkQueue.NumRequeues(View(), item) && View() == old(View()) && calls == old(calls) + [CountCall]
    {
      calls := calls + [CountCall];
      n := if item in failures then failures[item] else 0;
    }

    method AddRateLimited(item: Item)
      modifies this
      ensures View() == WorkQueue.AddRateLimited(old(View()), item) && calls == old(calls) + [RequeueCall]
    {
      calls := calls + [RequeueCall];
      failures := failures[item := (if item in failures then failures[item] else 0) + 1];
      if !shutDown {
        delayed := delayed + multiset{item};
      }
    }
  }

  /** The queue after one item was taken and handled by a worker nobody interrupts. */
  function AfterItem(q: Queue, syncFails: bool): Queue
    requires q.waiting != []
  {
    var item := q.waiting[0];
    if item.Junk? || !syncFails then Done(Forget(Get(q), item), item)
    else if NumRequeues(q, item) < MAX_RETRIES then AddRateLimited(Done(Get(q), item), item)
    else Done(Get(q), item)
  }

  /** The calls of one round. The deferred Done comes before the counter is read. */
  function CallsOf(q: Queue, syncFails: bool): seq<Call> {
    if q.waiting == [] then [GetCall]
    else if q.waiting[0].Junk? || !syncFails then [GetCall, ForgetCall, DoneCall]
    else if NumRequeues(q, q.waiting[0]) < MAX_RETRIES then [GetCall, DoneCall, CountCall, RequeueCall]
    else [GetCall, DoneCall, CountCall]
  }

  /** One round of the loop; `syncFails` is what syncHandler reports for the key. */
  method ProcessNextWorkItem(queue: RateLimitingQueue, syncFails: bool) returns (more: bool)
    requires queue.waiting != [] || queue.shutDown
    modifies queue
    ensures more <==> old(queue.waiting) != []
    ensures queue.View() == if more then AfterItem(old(queue.View()), syncFails) else old(queue.View())
    ensures queue.calls == old(queue.calls) + CallsOf(old(queue.View()), syncFails)
    ensures more ==> LeavesNothing(old(queue.View()), syncFails, queue.View())
  {
    ghost var q := queue.View();
    var item, shutdown := queue.Get();
    if shutdown { return false; }
    var failed := false;
    if item.Junk? || !syncFails {
      queue.Forget(item);
    } else {
      failed := true;
    }
    queue.Done(item);
    if failed {
      var requeues := queue.NumRequeues(item);
      if requeues < MAX_RETRIES {
        queue.AddRateLimited(item);
      }
    }
    SuccessLeavesNothing(q, syncFails);
    return true;
  }

  /** An uninterrupted round is a run of the step relation, whatever the other workers
      are doing, so what holds along all runs holds of the loop. Which steps it takes
      depends on the sync and, after a failure, on the counter. */
  lemma RoundIsARun(q: Queue, pc: seq<Pc>, w: nat, syncFails: bool) returns (r: Run)
    requires q.waiting != [] && w < |pc| && pc[w] == Idle
    ensures IsRun(r) && r.states[0] == State(q, pc) && r.states[|r.labels|] == State(AfterItem(q, syncFails), pc)
    ensures var item := q.waiting[0];
            r.labels == if item.Junk? || !syncFails then [Taken(w), Forgotten(w), Finished(w)]
                        else if NumRequeues(q, item) < MAX_RETRIES then [Taken(w), Errored(w), Checked(w), Requeued(w)]
                        else [Taken(w), Errored(w), Checked(w)]
  {
    if q.waiting[0].Junk? || !syncFails {
      r := GoodRound(q, pc, w);
    } else {
      r := FailedRound(q, pc, w);
    }
  }

  lemma GoodRound(q: Queue, pc: seq<Pc>, w: nat) returns (r: Run)
    requires q.waiting != [] && w < |pc| && pc[w] == Idle
    ensures var item := q.waiting[0];
            IsRun(r) && r.states[0] == State(q, pc) && r.states[|r.labels|] == State(Done(Forget(Get(q), item), item), pc)
    ensures r.labels == [Taken(w), Forgotten(w), Finished(w)]
  {
    var item := q.waiting[0];
    var start := State(q, pc);
    var a := State(Get(q), pc[w := Syncing(item)]);
    var b := State(Forget(a.q, item), pc[w := Forgot(item)]);
    var end := State(Done(b.q, item), pc);
    assert a.pc[w := Forgot(item)] == b.pc && b.pc[w := Idle] == pc;
    r := Run([start, a, b, end], [Taken(w), Forgotten(w), Finished(w)]);
  }

  lemma FailedRound(q: Queue, pc: seq<Pc>, w: nat) returns (r: Run)
    requires q.waiting != [] && w < |pc| && pc[w] == Idle && q.waiting[0].Key?
    ensures IsRun(r) && r.states[0] == State(q, pc) && r.states[|r.labels|] == State(AfterItem(q, true), pc)
    ensures r.labels == [Taken(w), Errored(w), Checked(w)] + if NumRequeues(q, q.waiting[0]) < MAX_RETRIES then [Requeued(w)] else []
  {
    var item := q.waiting[0];
    var start, a := State(q, pc), State(Get(q), pc[w := Syncing(item)]);
    var b := FailedSync(q, pc, w);
    if NumRequeues(q, item) < MAX_RETRIES {
      var c, end := Retried(b, w, item);
      assert end == State(AddRateLimited(b.q, item), pc);
      r := Run([start, a, b, c, end], [Taken(w), Errored(w), Checked(w), Requeued(w)]);
    } else {
      var end := State(b.q, pc);
      assert Next(b, Checked(w), end);
      r := Run([start, a, b, end], [Taken(w), Errored(w), Checked(w)]);
    }
  }

  lemma FailedSync(q: Queue, pc: seq<Pc>, w: nat) returns (b: State)
    requires q.waiting != [] && w < |pc| && pc[w] == Idle && q.waiting[0].Key?
    ensures var item := q.waiting[0];
            var a := State(Get(q), pc[w := Syncing(item)]);
            && Next(State(q, pc), Taken(w), a) && Next(a, Errored(w), b)
            && b == State(Done(Get(q), item), pc[w := Failed(item)]) && b.pc[w := Idle] == pc
  {
    var item := q.waiting[0];
    b := State(Done(Get(q), item), pc[w := Failed(item)]);
    assert pc[w := Syncing(item)][w := Failed(item)] == b.pc && b.pc[w := Idle] == pc;
  }

  lemma Retried(b: State, w: nat, item: Item) returns (c: State, end: State)
    requires w < |b.pc| && b.pc[w] == Failed(item) && NumRequeues(b.q, item) < MAX_RETRIES
    ensures Next(b, Checked(w), c) && Next(c, Requeued(w), end)
    ensures end == State(AddRateLimited(b.q, item), b.pc[w := Idle])
  {
    c := State(b.q, b.pc[w := Passed(item)]);
    end := State(AddRateLimited(b.q, item), b.pc[w := Idle]);
    assert c.pc[w := Idle] == end.pc;
  }

  /** The queue without its first waiting item, which nobody processes or has added again. */
  function TakenOut(q: Queue): Queue
    requires q.waiting != []
  {
    q.(waiting := q.waiting[1..], dirty := q.dirty - {q.waiting[0]})
  }

  /** After a successful round, or one of an item that is no key, nothing of the item is left:
      it does not wait, its failures are forgotten, and no retry is delayed. */
  ghost predicate LeavesNothing(q: Queue, syncFails: bool, q': Queue)
    requires q.waiting != []
  {
    QueueInv(q) && (q.waiting[0].Junk? || !syncFails) ==>
      q' == TakenOut(q).(failures := q.failures - {q.waiting[0]}) && q.waiting[0] !in q.waiting[1..]
  }

  lemma SuccessLeavesNothing(q: Queue, syncFails: bool)
    requires q.waiting != []
    ensures LeavesNothing(q, syncFails, AfterItem(q, syncFails))
  {
    if QueueInv(q) {
      assert q.processing + {q.waiting[0]} - {q.waiting[0]} == q.processing;
    }
  }

  /** After a failed round of a key its delay queues it again, or, with the budget spent,
      nothing of the round is left and only a new event does. */
  lemma FailureComesBackIff(q: Queue)
    requires QueueInv(q) && q.waiting != [] && q.waiting[0].Key? && !q.shutDown
    ensures var item, q' := q.waiting[0], AfterItem(q, true);
            && item !in q'.dirty && item !in q'.waiting && item !in q'.processing
            && item in Fire(q', item).waiting
            && (item in q'.delayed - q.delayed <==> NumRequeues(q, item) < MAX_RETRIES)
            && (NumRequeues(q, item) >= MAX_RETRIES ==> q' == TakenOut(q))
  {
    var item, q' := q.waiting[0], AfterItem(q, true);
    assert q.processing + {item} - {item} == q.processing;
    assert q'.delayed[item] == q.delayed[item] + if NumRequeues(q, item) < MAX_RETRIES then 1 else 0;
  }
}
