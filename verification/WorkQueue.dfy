/** The rate-limiting work queue both controllers use, and their worker loop. */
module WorkQueue {

  /** Handlers only add string keys, but the queue holds any value. */
  datatype Item = Key(key: string) | Junk(id: nat)

  /** `delayed` holds the items handed to AddAfter that have not fired yet. */
  datatype Queue = Queue(waiting: seq<Item>, dirty: set<Item>, processing: set<Item>,
                         delayed: multiset<Item>, failures: map<Item, nat>, shutDown: bool)

  const EMPTY := Queue([], {}, {}, multiset{}, map[], false)

  const MAX_RETRIES: nat := 15

  function Add(q: Queue, item: Item): Queue {
    if q.shutDown || item in q.dirty then q
    else if item in q.processing then q.(dirty := q.dirty + {item})
    else q.(dirty := q.dirty + {item}, waiting := q.waiting + [item])
  }

  function Get(q: Queue): Queue
    requires q.waiting != []
  {
    var item := q.waiting[0];
    q.(waiting := q.waiting[1..], processing := q.processing + {item}, dirty := q.dirty - {item})
  }

  function Done(q: Queue, item: Item): Queue {
    q.(processing := q.processing - {item},
       waiting := if item in q.dirty then q.waiting + [item] else q.waiting)
  }

  function Forget(q: Queue, item: Item): Queue {
    q.(failures := q.failures - {item})
  }

  function NumRequeues(q: Queue, item: Item): nat {
    if item in q.failures then q.failures[item] else 0
  }

  /** The failure is counted at once, the item only comes back after a delay, and
      not at all if the queue is shutting down. */
  function AddRateLimited(q: Queue, item: Item): Queue {
    q.(failures := q.failures[item := NumRequeues(q, item) + 1],
       delayed := if q.shutDown then q.delayed else q.delayed + multiset{item})
  }

  function Fire(q: Queue, item: Item): Queue {
    Add(q.(delayed := q.delayed - multiset{item}), item)
  }

  /** Where a worker stands in processNextWorkItem. `Forgot` is between Forget and the
      deferred Done; `Failed` is after Done with an error; `Passed` has read a counter
      below the limit and is about to call AddRateLimited. */
  datatype Pc = Idle | Syncing(item: Item) | Forgot(item: Item) | Failed(item: Item) | Passed(item: Item) | Stopped

  datatype State = State(q: Queue, pc: seq<Pc>)

  datatype Label =
    | Added(item: Item)
    | Fired(item: Item)
    | ShutDown
    | Taken(w: nat)
    | Exited(w: nat)
    | Forgotten(w: nat)
    | Finished(w: nat)
    | Errored(w: nat)
    | Checked(w: nat)
    | Requeued(w: nat)

  function Init(workers: nat): State {
    State(EMPTY, seq(workers, _ => Idle))
  }

  function Move(s: State, w: nat, pc: Pc, q: Queue): State
    requires w < |s.pc|
  {
    State(q, s.pc[w := pc])
  }

  /** One atomic step of the queue's users. Add, Fire and ShutDown come from outside the
      loop; every other step belongs to one worker. */
  predicate Next(s: State, l: Label, s': State) {
    match l
    case Added(item) => s' == s.(q := Add(s.q, item))
    case Fired(item) => item in s.q.delayed && s' == s.(q := Fire(s.q, item))
    case ShutDown => s' == s.(q := s.q.(shutDown := true))
    case Taken(w) => w < |s.pc| && s.pc[w] == Idle && s.q.waiting != [] && s' == Move(s, w, Syncing(s.q.waiting[0]), Get(s.q))
    case Exited(w) => w < |s.pc| && s.pc[w] == Idle && s.q.waiting == [] && s.q.shutDown && s' == Move(s, w, Stopped, s.q)
    case Forgotten(w) => w < |s.pc| && s.pc[w].Syncing? && s' == Move(s, w, Forgot(s.pc[w].item), Forget(s.q, s.pc[w].item))
    case Finished(w) => w < |s.pc| && s.pc[w].Forgot? && s' == Move(s, w, Idle, Done(s.q, s.pc[w].item))
    case Errored(w) => w < |s.pc| && s.pc[w].Syncing? && s.pc[w].item.Key? && s' == Move(s, w, Failed(s.pc[w].item), Done(s.q, s.pc[w].item))
    case Checked(w) =>
      w < |s.pc| && s.pc[w].Failed? &&
      s' == Move(s, w, if NumRequeues(s.q, s.pc[w].item) < MAX_RETRIES then Passed(s.pc[w].item) else Idle, s.q)
    case Requeued(w) => w < |s.pc| && s.pc[w].Passed? && s' == Move(s, w, Idle, AddRateLimited(s.q, s.pc[w].item))
  }

  /** A run lists its states and, between them, its labels. */
  datatype Run = Run(states: seq<State>, labels: seq<Label>)

  ghost predicate IsRun(r: Run) {
    && |r.states| == |r.labels| + 1
    && forall i :: 0 <= i < |r.labels| ==> Next(r.states[i], r.labels[i], r.states[i + 1])
  }

  ghost predicate RunOf(r: Run, workers: nat) {
    IsRun(r) && r.states[0] == Init(workers)
  }

  predicate Holds(pc: Pc, item: Item) {
    (pc.Syncing? || pc.Forgot?) && pc.item == item
  }

  /** Queued items are distinct, and they are the dirty ones that are not being processed. */
  ghost predicate QueueInv(q: Queue) {
    && (forall i :: 0 <= i < |q.waiting| ==> q.waiting[i] in q.dirty && q.waiting[i] !in q.processing)
    && (forall i, j :: 0 <= i < j < |q.waiting| ==> q.waiting[i] != q.waiting[j])
    && (forall item :: item in q.dirty && item !in q.processing ==> item in q.waiting)
  }

  /** What workers hold is marked as processing, and no item is held twice. */
  ghost predicate HeldOnce(s: State) {
    && (forall w, item :: 0 <= w < |s.pc| && Holds(s.pc[w], item) ==> item in s.q.processing)
    && (forall v, w, item :: 0 <= v < w < |s.pc| && Holds(s.pc[v], item) ==> !Holds(s.pc[w], item))
  }

  /** What is marked as processing is in the hands of a worker. */
  ghost predicate Attended(s: State) {
    forall item :: item in s.q.processing ==> exists w :: 0 <= w < |s.pc| && Holds(s.pc[w], item)
  }

  ghost predicate Inv(s: State) {
    QueueInv(s.q) && HeldOnce(s) && Attended(s)
  }

  lemma HeldOnceStep(s: State, l: Label, s': State)
    requires Inv(s) && Next(s, l, s')
    ensures HeldOnce(s') && |s'.pc| == |s.pc|
  {
    if l.Finished? || l.Errored? {
      var mine := s.pc[l.w].item;
      assert Holds(s.pc[l.w], mine);
      assert forall w, item :: 0 <= w < |s.pc| && Holds(s'.pc[w], item) ==> w != l.w && Holds(s.pc[w], item) && item != mine;
    } else if l.Taken? {
      var mine := s.q.waiting[0];
      assert forall w :: 0 <= w < |s.pc| ==> !Holds(s.pc[w], mine);
    } else {
      assert forall w, item :: 0 <= w < |s.pc| && Holds(s'.pc[w], item) ==> Holds(s.pc[w], item);
    }
  }

  lemma AttendedStep(s: State, l: Label, s': State)
    requires Inv(s) && Next(s, l, s')
    ensures Attended(s')
  {
    forall item | item in s'.q.processing
      ensures exists w :: 0 <= w < |s'.pc| && Holds(s'.pc[w], item)
    {
      if l.Taken? && item == s.q.waiting[0] {
        assert Holds(s'.pc[l.w], item);
      } else {
        var w :| 0 <= w < |s.pc| && Holds(s.pc[w], item);
        assert Holds(s'.pc[w], item);
      }
    }
  }

  lemma InvStep(s: State, l: Label, s': State)
    requires Inv(s) && Next(s, l, s')
    ensures Inv(s') && |s'.pc| == |s.pc|
  {
    HeldOnceStep(s, l, s');
    AttendedStep(s, l, s');
    QueueStep(s, l, s');
  }

  lemma GetKeepsQueue(q: Queue)
    requires QueueInv(q) && q.waiting != []
    ensures QueueInv(Get(q))
  {
  }

  lemma AddKeepsQueue(q: Queue, item: Item)
    requires QueueInv(q)
    ensures QueueInv(Add(q, item))
  {
  }

  lemma DoneKeepsQueue(q: Queue, item: Item)
    requires QueueInv(q) && item in q.processing
    ensures QueueInv(Done(q, item))
  {
  }

  lemma QueueStep(s: State, l: Label, s': State)
    requires QueueInv(s.q) && HeldOnce(s) && Next(s, l, s')
    ensures QueueInv(s'.q)
  {
    if l.Finished? || l.Errored? {
      assert Holds(s.pc[l.w], s.pc[l.w].item);
      DoneKeepsQueue(s.q, s.pc[l.w].item);
    } else if l.Taken? {
      GetKeepsQueue(s.q);
    } else if l.Added? {
      AddKeepsQueue(s.q, l.item);
    } else if l.Fired? {
      AddKeepsQueue(s.q.(delayed := s.q.delayed - multiset{l.item}), l.item);
    }
  }

  lemma {:induction false} InvOfRun(r: Run, workers: nat, i: nat)
    requires RunOf(r, workers) && i < |r.states|
    ensures Inv(r.states[i]) && |r.states[i].pc| == workers
  {
    if i > 0 {
      InvOfRun(r, workers, i - 1);
      InvStep(r.states[i - 1], r.labels[i - 1], r.states[i]);
    }
  }

  /** Along any run at most one worker is inside the sync of a key. */
  lemma OneSyncPerItem(r: Run, workers: nat, i: nat, v: nat, w: nat)
    requires RunOf(r, workers) && i < |r.states|
    requires v < workers && w < workers && |r.states[i].pc| == workers
    requires r.states[i].pc[v].Syncing? && r.states[i].pc[w].Syncing? && r.states[i].pc[v].item == r.states[i].pc[w].item
    ensures v == w
  {
    InvOfRun(r, workers, i);
    assert Holds(r.states[i].pc[v], r.states[i].pc[v].item) && Holds(r.states[i].pc[w], r.states[i].pc[v].item);
  }

  /** The step hands the item to a worker. */
  predicate Takes(s: State, l: Label, item: Item) {
    l.Taken? && s.q.waiting != [] && s.q.waiting[0] == item
  }

  /** The item is queued, or the worker that holds it will queue it again when done. */
  ghost predicate Pending(s: State, item: Item) {
    item in s.q.waiting || (item in s.q.dirty && exists w :: 0 <= w < |s.pc| && Holds(s.pc[w], item))
  }

  /** No event is lost: an item added before the shutdown, even in the middle of its own
      sync, stays pending until a worker takes it after that. */
  lemma {:induction false} AddedIsPending(r: Run, workers: nat, i: nat, j: nat, item: Item)
    requires RunOf(r, workers) && i < j < |r.states|
    requires r.labels[i] == Added(item) && !r.states[i].q.shutDown
    requires forall k :: i < k < j ==> !Takes(r.states[k], r.labels[k], item)
    ensures item in r.states[j].q.dirty && Pending(r.states[j], item)
  {
    InvOfRun(r, workers, j);
    if i + 1 < j {
      AddedIsPending(r, workers, i, j - 1, item);
      assert !Takes(r.states[j - 1], r.labels[j - 1], item);
    }
    assert Next(r.states[j - 1], r.labels[j - 1], r.states[j]);
  }

  /** From the shutdown on nothing new is queued or delayed. */
  lemma ShutDownForGood(s: State, l: Label, s': State)
    requires Next(s, l, s') && s.q.shutDown
    ensures s'.q.shutDown && s'.q.delayed <= s.q.delayed && s'.q.dirty <= s.q.dirty
  {
  }
}
