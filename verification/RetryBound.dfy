/** How often an item can be retried when several workers share the queue. */
module RetryBound {
  import opened WorkQueue

  /** The workers that passed the check for `item` but have not requeued it yet. */
  ghost function Past(pc: seq<Pc>, item: Item): nat {
    if pc == [] then 0
    else Past(pc[..|pc| - 1], item) + if pc[|pc| - 1] == Passed(item) then 1 else 0
  }

  lemma {:induction false} PastAfterUpdate(pc: seq<Pc>, item: Item, w: nat, x: Pc)
    requires w < |pc|
    ensures Past(pc[w := x], item) + (if pc[w] == Passed(item) then 1 else 0)
         == Past(pc, item) + (if x == Passed(item) then 1 else 0)
    ensures Past(pc, item) <= |pc|
    ensures pc[w] != Passed(item) ==> Past(pc, item) < |pc|
    decreases |pc|
  {
    var n := |pc| - 1;
    if w < n {
      PastAfterUpdate(pc[..n], item, w, x);
      assert pc[w := x][..n] == pc[..n][w := x];
    } else {
      assert pc[w := x][..n] == pc[..n];
      if n > 0 {
        PastAfterUpdate(pc[..n], item, 0, Idle);
      }
    }
  }

  lemma {:induction false} NobodyPastInitially(workers: nat, item: Item)
    ensures Past(Init(workers).pc, item) == 0
  {
    if workers > 0 {
      NobodyPastInitially(workers - 1, item);
      assert Init(workers).pc[..workers - 1] == Init(workers - 1).pc;
    }
  }

  /** One step moves the sum of counter and passed workers only by a passed check, which
      needs a counter below the limit, or by a Forget. */
  lemma StepBudget(s: State, l: Label, s': State, item: Item)
    requires Next(s, l, s')
    ensures |s'.pc| == |s.pc|
    ensures var sum := NumRequeues(s.q, item) + Past(s.pc, item);
            var sum' := NumRequeues(s'.q, item) + Past(s'.pc, item);
            if l.Forgotten? && s.pc[l.w].item == item then
              NumRequeues(s'.q, item) == 0 && Past(s'.pc, item) == Past(s.pc, item)
            else if l.Checked? && s.pc[l.w] == Failed(item) && NumRequeues(s.q, item) < MAX_RETRIES then
              sum' == sum + 1 && Past(s'.pc, item) <= |s.pc| && NumRequeues(s'.q, item) == NumRequeues(s.q, item)
            else sum' == sum
  {
    PastStep(s, l, s', item);
    CounterStep(s, l, s', item);
  }

  /** The step passes the check for `item`. */
  predicate Passes(s: State, l: Label, item: Item) {
    l.Checked? && l.w < |s.pc| && s.pc[l.w] == Failed(item) && NumRequeues(s.q, item) < MAX_RETRIES
  }

  lemma PastStep(s: State, l: Label, s': State, item: Item)
    requires Next(s, l, s')
    ensures |s'.pc| == |s.pc| && Past(s'.pc, item) <= |s.pc|
    ensures Past(s'.pc, item) + (if Requeues(s, l, item) then 1 else 0) == Past(s.pc, item) + (if Passes(s, l, item) then 1 else 0)
  {
    if l.Taken? || l.Exited? || l.Forgotten? || l.Finished? || l.Errored? || l.Checked? || l.Requeued? {
      PastAfterUpdate(s.pc, item, l.w, s'.pc[l.w]);
      PastIsBounded(s'.pc, item);
    } else {
      PastIsBounded(s.pc, item);
    }
  }

  lemma {:induction false} PastIsBounded(pc: seq<Pc>, item: Item)
    ensures Past(pc, item) <= |pc|
  {
    if pc != [] {
      PastAfterUpdate(pc, item, 0, pc[0]);
    }
  }

  predicate Requeues(s: State, l: Label, item: Item) {
    l.Requeued? && l.w < |s.pc| && s.pc[l.w] == Passed(item)
  }

  predicate Forgets(s: State, l: Label, item: Item) {
    l.Forgotten? && l.w < |s.pc| && s.pc[l.w] == Syncing(item)
  }

  lemma CounterStep(s: State, l: Label, s': State, item: Item)
    requires Next(s, l, s')
    ensures NumRequeues(s'.q, item) ==
            if Requeues(s, l, item) then NumRequeues(s.q, item) + 1
            else if Forgets(s, l, item) then 0
            else NumRequeues(s.q, item)
  {
  }

  /** The retry bound: in every reachable state, counter plus workers past the check is
      at most the limit plus the other workers. */
  lemma {:induction false} RetriesAreBounded(r: Run, workers: nat, i: nat, item: Item)
    requires RunOf(r, workers) && i < |r.states|
    ensures |r.states[i].pc| == workers
    ensures NumRequeues(r.states[i].q, item) + Past(r.states[i].pc, item) <= MAX_RETRIES + workers - 1
  {
    if i == 0 {
      NobodyPastInitially(workers, item);
    } else {
      RetriesAreBounded(r, workers, i - 1, item);
      StepBudget(r.states[i - 1], r.labels[i - 1], r.states[i], item);
    }
  }

  /** The requeues of `item` among the first `n` steps since its last Forget there. */
  ghost function SinceForget(r: Run, n: nat, item: Item): nat
    requires IsRun(r) && n <= |r.labels|
  {
    if n == 0 then 0
    else if Requeues(r.states[n - 1], r.labels[n - 1], item) then SinceForget(r, n - 1, item) + 1
    else if Forgets(r.states[n - 1], r.labels[n - 1], item) then 0
    else SinceForget(r, n - 1, item)
  }

  /** Retry accounting: the counter of an item is the number of its requeues since it was
      last forgotten, which only a worker that synced it without error does. */
  lemma {:induction false} CounterIsRequeuesSinceForget(r: Run, workers: nat, n: nat, item: Item)
    requires RunOf(r, workers) && n <= |r.labels|
    ensures NumRequeues(r.states[n].q, item) == SinceForget(r, n, item)
  {
    if n > 0 {
      CounterIsRequeuesSinceForget(r, workers, n - 1, item);
      SinceForgetStep(r, n - 1, item);
    }
  }

  lemma SinceForgetStep(r: Run, n: nat, item: Item)
    requires IsRun(r) && n < |r.labels| && NumRequeues(r.states[n].q, item) == SinceForget(r, n, item)
    ensures NumRequeues(r.states[n + 1].q, item) == SinceForget(r, n + 1, item)
  {
    assert Next(r.states[n], r.labels[n], r.states[n + 1]);
    CounterStep(r.states[n], r.labels[n], r.states[n + 1], item);
  }

  lemma ExhaustedStep(s: State, l: Label, s': State, item: Item)
    requires Next(s, l, s') && !Forgets(s, l, item) && NumRequeues(s.q, item) >= MAX_RETRIES
    ensures NumRequeues(s'.q, item) + Past(s'.pc, item) == NumRequeues(s.q, item) + Past(s.pc, item)
    ensures NumRequeues(s'.q, item) >= NumRequeues(s.q, item)
  {
    StepBudget(s, l, s', item);
    CounterStep(s, l, s', item);
  }

  /** An exhausted budget: from a state whose counter is at the limit, until the item is
      forgotten, only workers already past the check can requeue it. */
  lemma {:induction false} ExhaustedBudget(r: Run, workers: nat, i: nat, j: nat, item: Item)
    requires RunOf(r, workers) && i <= j < |r.states|
    requires NumRequeues(r.states[i].q, item) >= MAX_RETRIES
    requires forall k :: i <= k < j ==> !Forgets(r.states[k], r.labels[k], item)
    ensures NumRequeues(r.states[j].q, item) + Past(r.states[j].pc, item)
         == NumRequeues(r.states[i].q, item) + Past(r.states[i].pc, item)
    ensures NumRequeues(r.states[j].q, item) >= NumRequeues(r.states[i].q, item)
  {
    if i < j {
      ExhaustedBudget(r, workers, i, j - 1, item);
      ExhaustedStep(r.states[j - 1], r.labels[j - 1], r.states[j], item);
    }
  }

  /** With one worker an exhausted item is not requeued at all until it is forgotten. */
  lemma ExhaustedAlone(r: Run, i: nat, j: nat, item: Item)
    requires RunOf(r, 1) && i <= j < |r.labels|
    requires NumRequeues(r.states[i].q, item) >= MAX_RETRIES
    requires forall k :: i <= k < j ==> !Forgets(r.states[k], r.labels[k], item)
    ensures !Requeues(r.states[j], r.labels[j], item)
  {
    ExhaustedBudget(r, 1, i, j, item);
    CounterStep(r.states[j], r.labels[j], r.states[j + 1], item);
    RetriesAreBounded(r, 1, j + 1, item);
  }

  // ----- the bound is reached

  ghost predicate Path(s: State, s': State) {
    exists r :: IsRun(r) && r.states[0] == s && r.states[|r.labels|] == s'
  }

  lemma OneStep(s: State, l: Label, s': State)
    requires Next(s, l, s')
    ensures Path(s, s')
  {
    var r := Run([s, s'], [l]);
    assert IsRun(r) && r.states[0] == s && r.states[|r.labels|] == s';
  }

  lemma NoStep(s: State)
    ensures Path(s, s)
  {
    var r := Run([s], []);
    assert IsRun(r) && r.states[0] == s && r.states[|r.labels|] == s;
  }

  lemma Join(a: State, b: State, c: State)
    requires Path(a, b) && Path(b, c)
    ensures Path(a, c)
  {
    var r :| IsRun(r) && r.states[0] == a && r.states[|r.labels|] == b;
    var t :| IsRun(t) && t.states[0] == b && t.states[|t.labels|] == c;
    var n := |r.labels|;
    var rt := Run(r.states[..n] + t.states, r.labels + t.labels);
    forall i | 0 <= i < |rt.labels|
      ensures Next(rt.states[i], rt.labels[i], rt.states[i + 1])
    {
      if i < n {
        assert Next(r.states[i], r.labels[i], r.states[i + 1]);
      } else {
        assert Next(t.states[i - n], t.labels[i - n], t.states[i - n + 1]);
      }
    }
    assert IsRun(rt) && rt.states[0] == a && rt.states[|rt.labels|] == c;
  }

  /** A queue that has nothing to do and has counted `f` failures of `item`. */
  ghost function Tried(item: Item, f: nat): Queue {
    Queue([], {}, {}, multiset{}[item := f], if f == 0 then map[] else map[item := f], false)
  }

  /** The workers below `j` are at `x`, the others at `y`. */
  ghost function Split(workers: nat, j: nat, x: Pc, y: Pc): seq<Pc> {
    seq(workers, v => if v < j then x else y)
  }

  lemma FailOnce(item: Item, f: nat, pc: seq<Pc>, w: nat)
    requires item.Key? && w < |pc| && pc[w] == Idle
    ensures Path(State(Tried(item, f), pc), State(Tried(item, f), pc[w := Failed(item)]))
  {
    var q := Tried(item, f);
    var a, b := State(Add(q, item), pc), State(Get(Add(q, item)), pc[w := Syncing(item)]);
    var c := State(q, pc[w := Failed(item)]);
    assert q.waiting + [item] == [item] && [item][1..] == [];
    assert Done(b.q, item) == q;
    assert b.pc[w := Failed(item)] == c.pc;
    OneStep(State(q, pc), Added(item), a);
    OneStep(a, Taken(w), b);
    OneStep(b, Errored(w), c);
    Join(State(q, pc), a, b);
    Join(State(q, pc), b, c);
  }

  lemma CheckOnce(item: Item, f: nat, pc: seq<Pc>, w: nat)
    requires w < |pc| && pc[w] == Failed(item) && f < MAX_RETRIES
    ensures Path(State(Tried(item, f), pc), State(Tried(item, f), pc[w := Passed(item)]))
  {
    OneStep(State(Tried(item, f), pc), Checked(w), State(Tried(item, f), pc[w := Passed(item)]));
  }

  lemma RequeueOnce(item: Item, f: nat, pc: seq<Pc>, w: nat)
    requires w < |pc| && pc[w] == Passed(item)
    ensures Path(State(Tried(item, f), pc), State(Tried(item, f + 1), pc[w := Idle]))
  {
    assert AddRateLimited(Tried(item, f), item) == Tried(item, f + 1);
    OneStep(State(Tried(item, f), pc), Requeued(w), State(Tried(item, f + 1), pc[w := Idle]));
  }

  /** The first worker alone fails and requeues, up to one short of the limit. */
  lemma RetryOnce(item: Item, idle: seq<Pc>, f: nat)
    requires item.Key? && |idle| > 0 && idle[0] == Idle && f < MAX_RETRIES
    ensures Path(State(Tried(item, f), idle), State(Tried(item, f + 1), idle))
  {
    var failed, passed := idle[0 := Failed(item)], idle[0 := Passed(item)];
    assert failed[0 := Passed(item)] == passed && passed[0 := Idle] == idle;
    FailOnce(item, f, idle, 0);
    CheckOnce(item, f, failed, 0);
    RequeueOnce(item, f, passed, 0);
    Join(State(Tried(item, f), idle), State(Tried(item, f), failed), State(Tried(item, f), passed));
    Join(State(Tried(item, f), idle), State(Tried(item, f), passed), State(Tried(item, f + 1), idle));
  }

  lemma {:induction false} FailTimes(item: Item, workers: nat, f: nat)
    requires item.Key? && workers > 0 && f < MAX_RETRIES
    ensures Path(Init(workers), State(Tried(item, f), Init(workers).pc))
  {
    if f == 0 {
      assert Tried(item, 0) == EMPTY;
      NoStep(Init(workers));
    } else {
      FailTimes(item, workers, f - 1);
      RetryOnce(item, Init(workers).pc, f - 1);
      Join(Init(workers), State(Tried(item, f - 1), Init(workers).pc), State(Tried(item, f), Init(workers).pc));
    }
  }

  /** Then every worker in turn fails, then every one passes the check. */
  lemma {:induction false} AllFail(item: Item, f: nat, workers: nat, j: nat)
    requires item.Key? && j <= workers
    ensures Path(State(Tried(item, f), Split(workers, 0, Failed(item), Idle)), State(Tried(item, f), Split(workers, j, Failed(item), Idle)))
  {
    if j == 0 {
      NoStep(State(Tried(item, f), Split(workers, 0, Failed(item), Idle)));
    } else {
      var pc := Split(workers, j - 1, Failed(item), Idle);
      AllFail(item, f, workers, j - 1);
      FailOnce(item, f, pc, j - 1);
      assert pc[j - 1 := Failed(item)] == Split(workers, j, Failed(item), Idle);
      Join(State(Tried(item, f), Split(workers, 0, Failed(item), Idle)), State(Tried(item, f), pc),
           State(Tried(item, f), Split(workers, j, Failed(item), Idle)));
    }
  }

  lemma {:induction false} AllPass(item: Item, f: nat, workers: nat, j: nat)
    requires j <= workers && f < MAX_RETRIES
    ensures Path(State(Tried(item, f), Split(workers, 0, Passed(item), Failed(item))), State(Tried(item, f), Split(workers, j, Passed(item), Failed(item))))
  {
    if j == 0 {
      NoStep(State(Tried(item, f), Split(workers, 0, Passed(item), Failed(item))));
    } else {
      var pc := Split(workers, j - 1, Passed(item), Failed(item));
      AllPass(item, f, workers, j - 1);
      CheckOnce(item, f, pc, j - 1);
      assert pc[j - 1 := Passed(item)] == Split(workers, j, Passed(item), Failed(item));
      Join(State(Tried(item, f), Split(workers, 0, Passed(item), Failed(item))), State(Tried(item, f), pc),
           State(Tried(item, f), Split(workers, j, Passed(item), Failed(item))));
    }
  }

  lemma {:induction false} AllRequeue(item: Item, f: nat, workers: nat, j: nat)
    requires j <= workers
    ensures Path(State(Tried(item, f), Split(workers, 0, Idle, Passed(item))), State(Tried(item, f + j), Split(workers, j, Idle, Passed(item))))
  {
    if j == 0 {
      NoStep(State(Tried(item, f), Split(workers, 0, Idle, Passed(item))));
    } else {
      var pc := Split(workers, j - 1, Idle, Passed(item));
      AllRequeue(item, f, workers, j - 1);
      RequeueOnce(item, f + j - 1, pc, j - 1);
      assert pc[j - 1 := Idle] == Split(workers, j, Idle, Passed(item));
      Join(State(Tried(item, f), Split(workers, 0, Idle, Passed(item))), State(Tried(item, f + j - 1), pc),
           State(Tried(item, f + j), Split(workers, j, Idle, Passed(item))));
    }
  }

  /** The bound is exact: with any number of workers some run drives the counter of any
      string key to it, and so past the limit as soon as there are two. */
  lemma BoundIsReached(workers: nat, item: Item)
    requires workers > 0 && item.Key?
    ensures exists s :: Path(Init(workers), s) && NumRequeues(s.q, item) == 15 + workers - 1
  {
    var f := MAX_RETRIES - 1;
    var idle := Init(workers);
    var s0 := State(Tried(item, f), idle.pc);
    FailTimes(item, workers, f);
    AllFail(item, f, workers, workers);
    assert Split(workers, 0, Failed(item), Idle) == idle.pc;
    var s1 := State(Tried(item, f), Split(workers, workers, Failed(item), Idle));
    Join(idle, s0, s1);
    AllPass(item, f, workers, workers);
    assert Split(workers, 0, Passed(item), Failed(item)) == s1.pc;
    var s2 := State(Tried(item, f), Split(workers, workers, Passed(item), Failed(item)));
    Join(idle, s1, s2);
    AllRequeue(item, f, workers, workers);
    assert Split(workers, 0, Idle, Passed(item)) == s2.pc;
    var s3 := State(Tried(item, f + workers), Split(workers, workers, Idle, Passed(item)));
    Join(idle, s2, s3);
    assert NumRequeues(s3.q, item) == MAX_RETRIES + workers - 1;
  }
}
